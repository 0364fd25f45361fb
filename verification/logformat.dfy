/** Format selection and argument resolution for one log line. The line is
    kept as the pair (format string, resolved arguments) handed to the sink. */
module LogFormat {
  import opened Wrappers
  import opened Writers
  import opened StatusCapture
  import opened Strings
  import opened Tokens

  /** Names of the predefined formats. */
  const Ldefault := "_default_"
  const Lshort := "_short_"
  const Ltiny := "_tiny_"

  datatype Format = Format(fmt: string, tokens: seq<string>)

  /** The predefined formats: an Apache-combined-like line, a short one and a
      tiny one, each with its fixed token order. */
  const DefaultFormat := Format(
    "%s - - [%s] \"%s %s HTTP/%s\" %d %s \"%s\" \"%s\"",
    ["remote-addr", "date", "method", "url", "http-version", "status", "res[Content-Length]", "referrer", "user-agent"])
  const ShortFormat := Format(
    "%s - %s %s HTTP/%s %d %s - %.3f s",
    ["remote-addr", "method", "url", "http-version", "status", "res[Content-Length]", "response-time"])
  const TinyFormat := Format(
    "%s %s %d %s - %.3f s",
    ["method", "url", "status", "res[Content-Length]", "response-time"])

  const PredefFormats: map<string, Format> := map[Ldefault := DefaultFormat, Lshort := ShortFormat, Ltiny := TinyFormat]

  /** A produced log line: what `Printf` receives. */
  datatype LogLine = LogLine(format: string, args: seq<Value>)

  /** The active format: a predefined name replaces both the format string and
      the token list; any other format string is used literally with the
      caller's tokens. */
  function SelectFormat(opts: LogOptions): (f: Format)
    ensures opts.format in PredefFormats ==> f == PredefFormats[opts.format]
    ensures opts.format !in PredefFormats ==> f.fmt == opts.format && f.tokens == opts.tokens
  {
    if opts.format in PredefFormats then PredefFormats[opts.format] else Format(opts.format, opts.tokens)
  }

  /** Each predefined name selects its own format. */
  lemma SelectPredefined(opts: LogOptions)
    ensures opts.format == Ldefault ==> SelectFormat(opts) == DefaultFormat
    ensures opts.format == Lshort ==> SelectFormat(opts) == ShortFormat
    ensures opts.format == Ltiny ==> SelectFormat(opts) == TinyFormat
  {
  }

  /** For a predefined format the caller's tokens are ignored. */
  lemma PredefinedIgnoresTokens(opts: LogOptions, toks: seq<string>)
    requires opts.format in {Ldefault, Lshort, Ltiny}
    ensures SelectFormat(opts.(tokens := toks)) == SelectFormat(opts)
    ensures SelectFormat(opts).fmt != opts.format
  {
  }

  /** Every token of a predefined format is a built-in name or a header
      token, so it always has a predefined value. */
  lemma PredefinedTokensKnown(name: string, i: nat)
    requires name in PredefFormats && i < |PredefFormats[name].tokens|
    ensures var t := PredefFormats[name].tokens[i];
      BuiltinOf(t).Some? || ParseHeaderToken(t).Some?
  {
    BuiltinTable();
    ContentLengthToken();
  }

  /** A predefined format's line never consults the custom tokens: every
      argument is a predefined value, so neither a custom function nor the
      placeholder is ever used. */
  lemma PredefinedLineIgnoresCustomTokens(sw: StatusWriter, r: Request, clock: Clock, opts: LogOptions,
                                          custom: map<string, Option<CustomToken>>)
    requires opts.format in PredefFormats
    ensures LogRequest(sw, r, clock, opts.(customTokens := custom)) == LogRequest(sw, r, clock, opts)
    ensures forall i :: 0 <= i < |SelectFormat(opts).tokens| ==>
      PredefinedTokenValue(SelectFormat(opts).tokens[i], sw, r, clock, opts).Some?
  {
    var toks := SelectFormat(opts).tokens;
    var a := LogRequest(sw, r, clock, opts).args;
    var b := LogRequest(sw, r, clock, opts.(customTokens := custom)).args;
    forall i | 0 <= i < |toks|
      ensures b[i] == a[i] && PredefinedTokenValue(toks[i], sw, r, clock, opts).Some?
    {
      PredefinedTokensKnown(opts.format, i);
      CustomTokensNeverShadowPredefined(toks[i], sw, r, clock, opts, custom);
    }
  }

  /** Resolves the tokens one by one, in order; one unresolvable token yields
      the placeholder and the rest are still resolved. */
  function ResolveArgs(toks: seq<string>, sw: StatusWriter, r: Request, clock: Clock, opts: LogOptions): (args: seq<Value>)
    ensures |args| == |toks|
    ensures forall i :: 0 <= i < |toks| ==> args[i] == ResolveToken(toks[i], sw, r, clock, opts)
  {
    if toks == [] then [] else [ResolveToken(toks[0], sw, r, clock, opts)] + ResolveArgs(toks[1..], sw, r, clock, opts)
  }

  /** `logRequest`: the line for the active format, with argument `i` resolved
      from token `i`. */
  function LogRequest(sw: StatusWriter, r: Request, clock: Clock, opts: LogOptions): (line: LogLine)
    ensures line.format == SelectFormat(opts).fmt
    ensures |line.args| == |SelectFormat(opts).tokens|
    ensures forall i :: 0 <= i < |line.args| ==>
      line.args[i] == ResolveToken(SelectFormat(opts).tokens[i], sw, r, clock, opts)
  {
    var f := SelectFormat(opts);
    LogLine(f.fmt, ResolveArgs(f.tokens, sw, r, clock, opts))
  }

  /** The kind of value each predefined format hands to its conversions, in
      order: strings for `%s`, the integer status for `%d` and the elapsed
      seconds for `%.3f`. */
  lemma DefaultArgumentKinds(sw: StatusWriter, r: Request, clock: Clock, opts: LogOptions)
    requires opts.format == Ldefault
    ensures var a := LogRequest(sw, r, clock, opts).args;
      && |a| == 9
      && a[0].Str? && a[1].Str? && a[2].Str? && a[3].Str? && a[4].Str?
      && a[5].Int?
      && a[6].Str? && a[7].Str? && a[8].Str?
  {
    DefaultArguments(sw, r, clock, opts);
  }

  lemma ShortArgumentKinds(sw: StatusWriter, r: Request, clock: Clock, opts: LogOptions)
    requires opts.format == Lshort
    ensures var a := LogRequest(sw, r, clock, opts).args;
      && |a| == 7
      && a[0].Str? && a[1].Str? && a[2].Str? && a[3].Str?
      && a[4].Int? && a[5].Str? && a[6].Seconds?
  {
    ShortArguments(sw, r, clock, opts);
  }

  lemma TinyArgumentKinds(sw: StatusWriter, r: Request, clock: Clock, opts: LogOptions)
    requires opts.format == Ltiny
    ensures var a := LogRequest(sw, r, clock, opts).args;
      |a| == 5 && a[0].Str? && a[1].Str? && a[2].Int? && a[3].Str? && a[4].Seconds?
  {
    TinyArguments(sw, r, clock, opts);
  }

  /** Only `status` resolves to an integer and only `response-time` to
      seconds; every other token, built-in, header or custom, and an unknown
      one too, gives a string. */
  lemma TokenKind(t: string, sw: StatusWriter, r: Request, clock: Clock, opts: LogOptions)
    ensures ResolveToken(t, sw, r, clock, opts).Int? <==> t == "status"
    ensures ResolveToken(t, sw, r, clock, opts).Seconds? <==> t == "response-time"
    ensures t != "status" && t != "response-time" ==> ResolveToken(t, sw, r, clock, opts).Str?
  {
  }

  /** Argument `i` of a line whose token `i` is a built-in name is that
      built-in's value. */
  lemma BuiltinArgument(sw: StatusWriter, r: Request, clock: Clock, opts: LogOptions, i: nat, t: string, b: Builtin)
    requires i < |SelectFormat(opts).tokens| && SelectFormat(opts).tokens[i] == t
    requires BuiltinOf(t) == Some(b)
    ensures LogRequest(sw, r, clock, opts).args[i] == BuiltinValue(b, sw, r, clock, opts)
  {
  }

  /** Argument `i` of a line whose token `i` is a header token is that
      header's value, read from the request or from the response. */
  lemma HeaderArgument(sw: StatusWriter, r: Request, clock: Clock, opts: LogOptions, i: nat, t: string, ht: HeaderToken)
    requires i < |SelectFormat(opts).tokens| && SelectFormat(opts).tokens[i] == t
    requires BuiltinOf(t).None? && ParseHeaderToken(t) == Some(ht)
    ensures LogRequest(sw, r, clock, opts).args[i] ==
      Str(HeaderGet(if ht.dir == FromRequest then r.header else sw.inner.header, ht.name))
  {
  }

  /** The default line's arguments, field by field: client address, date,
      method, URL, protocol version, status, response content length,
      referrer and user agent. */
  lemma DefaultArguments(sw: StatusWriter, r: Request, clock: Clock, opts: LogOptions)
    requires opts.format == Ldefault
    ensures |LogRequest(sw, r, clock, opts).args| == 9
    ensures LogRequest(sw, r, clock, opts).args[0] == Str(r.remoteAddr)
    ensures LogRequest(sw, r, clock, opts).args[1] == Str(clock.formatNow(opts.dateFormat))
    ensures LogRequest(sw, r, clock, opts).args[2] == Str(r.httpMethod)
    ensures LogRequest(sw, r, clock, opts).args[3] == Str(r.url)
    ensures LogRequest(sw, r, clock, opts).args[4] == Str(ProtoVersion(r.protoMajor, r.protoMinor))
    ensures LogRequest(sw, r, clock, opts).args[5] == Int(sw.code)
    ensures LogRequest(sw, r, clock, opts).args[6] == Str(HeaderGet(sw.inner.header, "Content-Length"))
    ensures LogRequest(sw, r, clock, opts).args[7] == Str(HeaderGet(r.header, RefererHeader))
    ensures LogRequest(sw, r, clock, opts).args[8] == Str(HeaderGet(r.header, UserAgentHeader))
  {
    SelectPredefined(opts);
    BuiltinTable();
    BuiltinArgument(sw, r, clock, opts, 0, "remote-addr", RemoteAddr);
    BuiltinArgument(sw, r, clock, opts, 1, "date", Date);
    BuiltinArgument(sw, r, clock, opts, 2, "method", Method);
    BuiltinArgument(sw, r, clock, opts, 3, "url", Url);
    BuiltinArgument(sw, r, clock, opts, 4, "http-version", HttpVersion);
    BuiltinArgument(sw, r, clock, opts, 5, "status", Status);
    ContentLengthToken();
    HeaderArgument(sw, r, clock, opts, 6, "res[Content-Length]", HeaderToken(FromResponse, "Content-Length"));
    BuiltinArgument(sw, r, clock, opts, 7, "referrer", Referrer);
    BuiltinArgument(sw, r, clock, opts, 8, "user-agent", UserAgent);
  }

  /** The short line's arguments: client address, method, URL, protocol
      version, status, response content length and elapsed seconds. */
  lemma ShortArguments(sw: StatusWriter, r: Request, clock: Clock, opts: LogOptions)
    requires opts.format == Lshort
    ensures |LogRequest(sw, r, clock, opts).args| == 7
    ensures LogRequest(sw, r, clock, opts).args[0] == Str(r.remoteAddr)
    ensures LogRequest(sw, r, clock, opts).args[1] == Str(r.httpMethod)
    ensures LogRequest(sw, r, clock, opts).args[2] == Str(r.url)
    ensures LogRequest(sw, r, clock, opts).args[3] == Str(ProtoVersion(r.protoMajor, r.protoMinor))
    ensures LogRequest(sw, r, clock, opts).args[4] == Int(sw.code)
    ensures LogRequest(sw, r, clock, opts).args[5] == Str(HeaderGet(sw.inner.header, "Content-Length"))
    ensures LogRequest(sw, r, clock, opts).args[6] == Seconds(clock.elapsed)
  {
    SelectPredefined(opts);
    BuiltinTable();
    BuiltinArgument(sw, r, clock, opts, 0, "remote-addr", RemoteAddr);
    BuiltinArgument(sw, r, clock, opts, 1, "method", Method);
    BuiltinArgument(sw, r, clock, opts, 2, "url", Url);
    BuiltinArgument(sw, r, clock, opts, 3, "http-version", HttpVersion);
    BuiltinArgument(sw, r, clock, opts, 4, "status", Status);
    ContentLengthToken();
    HeaderArgument(sw, r, clock, opts, 5, "res[Content-Length]", HeaderToken(FromResponse, "Content-Length"));
    BuiltinArgument(sw, r, clock, opts, 6, "response-time", ResponseTime);
  }

  /** The tiny line's arguments: method, URL, status, response content length
      and elapsed seconds. */
  lemma TinyArguments(sw: StatusWriter, r: Request, clock: Clock, opts: LogOptions)
    requires opts.format == Ltiny
    ensures |LogRequest(sw, r, clock, opts).args| == 5
    ensures LogRequest(sw, r, clock, opts).args[0] == Str(r.httpMethod)
    ensures LogRequest(sw, r, clock, opts).args[1] == Str(r.url)
    ensures LogRequest(sw, r, clock, opts).args[2] == Int(sw.code)
    ensures LogRequest(sw, r, clock, opts).args[3] == Str(HeaderGet(sw.inner.header, "Content-Length"))
    ensures LogRequest(sw, r, clock, opts).args[4] == Seconds(clock.elapsed)
  {
    SelectPredefined(opts);
    BuiltinTable();
    BuiltinArgument(sw, r, clock, opts, 0, "method", Method);
    BuiltinArgument(sw, r, clock, opts, 1, "url", Url);
    BuiltinArgument(sw, r, clock, opts, 2, "status", Status);
    ContentLengthToken();
    HeaderArgument(sw, r, clock, opts, 3, "res[Content-Length]", HeaderToken(FromResponse, "Content-Length"));
    BuiltinArgument(sw, r, clock, opts, 4, "response-time", ResponseTime);
  }

  /** The tiny line for a GET of `/x` answered 200 with a five-byte body,
      logged after 0.002 seconds. */
  lemma TinyLineExample(clock: Clock)
    requires clock.elapsed == 0.002
    ensures
      var sw := StatusWriter(Writer([], map["Content-Length" := "5"], []), 200);
      var r := Request(1, 1, "127.0.0.1:1234", "GET", "/x", map[]);
      LogRequest(sw, r, clock, NewLogOptions(Ltiny, [])) ==
        LogLine("%s %s %d %s - %.3f s", [Str("GET"), Str("/x"), Int(200), Str("5"), Seconds(0.002)])
  {
    var sw := StatusWriter(Writer([], map["Content-Length" := "5"], []), 200);
    var r := Request(1, 1, "127.0.0.1:1234", "GET", "/x", map[]);
    TinyArguments(sw, r, clock, NewLogOptions(Ltiny, []));
  }

  /** The default line for a POST of `/a` over HTTP/1.1 answered 404 with an
      empty body, no referrer and user agent `curl`. */
  lemma DefaultLineExample(clock: Clock)
    requires clock.formatNow(RFC3339) == "2024-01-01T00:00:00Z"
    ensures
      var sw := StatusWriter(Writer([], map["Content-Length" := "0"], []), 404);
      var r := Request(1, 1, "127.0.0.1", "POST", "/a", map[UserAgentHeader := "curl"]);
      var a := LogRequest(sw, r, clock, NewLogOptions(Ldefault, [])).args;
      && |a| == 9
      && a[0] == Str("127.0.0.1") && a[1] == Str("2024-01-01T00:00:00Z")
      && a[2] == Str("POST") && a[3] == Str("/a") && a[4] == Str("1.1")
      && a[5] == Int(404) && a[6] == Str("0") && a[7] == Str("") && a[8] == Str("curl")
  {
    var sw := StatusWriter(Writer([], map["Content-Length" := "0"], []), 404);
    var r := Request(1, 1, "127.0.0.1", "POST", "/a", map[UserAgentHeader := "curl"]);
    DefaultArguments(sw, r, clock, NewLogOptions(Ldefault, []));
    VersionOneOne();
    assert HeaderGet(r.header, RefererHeader) == "";
  }

  lemma VersionOneOne()
    ensures ProtoVersion(1, 1) == "1.1"
  {
    assert IntToString(1) == "1";
  }

  lemma ContentLengthToken()
    ensures BuiltinOf("res[Content-Length]").None?
    ensures ParseHeaderToken("res[Content-Length]") == Some(HeaderToken(FromResponse, "Content-Length"))
  {
    var t := "res[Content-Length]";
    assert t[..4] == "res[";
    assert t[4..|t| - 1] == "Content-Length";
    assert ']' !in t[4..|t| - 1];
  }
}
