/** Log tokens and how each one is resolved to a value for one request. */
module Tokens {
  import opened Wrappers
  import opened Strings
  import opened Writers
  import opened StatusCapture

  /** The parts of an inbound request the logger reads. `url` is the request
      URL already rendered as a string. */
  datatype Request = Request(
    protoMajor: int,
    protoMinor: int,
    remoteAddr: string,
    httpMethod: string,
    url: string,
    header: Header)

  /** `Request.Referer()` and `Request.UserAgent()` read these headers. */
  const RefererHeader := "Referer"
  const UserAgentHeader := "User-Agent"

  /** A resolved log argument: Go passes strings, the int status code and the
      float64 response time to the formatter. */
  datatype Value = Str(s: string) | Int(i: int) | Seconds(secs: real)

  /** A caller-supplied token function; it receives the status-capturing
      writer and the request. */
  type CustomToken = (StatusWriter, Request) -> string

  /** `LogOptions` without the sink. A custom-token entry of `None` stands for
      a nil function value. */
  datatype LogOptions = LogOptions(
    format: string,
    tokens: seq<string>,
    customTokens: map<string, Option<CustomToken>>,
    immediate: bool,
    dateFormat: string)

  /** The clock readings taken while a line is produced: the seconds elapsed
      since the request started, and the current time rendered in a layout. */
  datatype Clock = Clock(elapsed: real, formatNow: string -> string)

  /** `time.RFC3339`, the default date layout. */
  const RFC3339 := "2006-01-02T15:04:05Z07:00"

  /** `NewLogOptions`: the given format and tokens, no custom tokens, deferred
      logging and the RFC 3339 date layout. */
  function NewLogOptions(ft: string, toks: seq<string>): (o: LogOptions)
    ensures o.format == ft && o.tokens == toks
    ensures o.customTokens == map[]
    ensures !o.immediate
    ensures o.dateFormat == RFC3339
  {
    LogOptions(ft, toks, map[], false, RFC3339)
  }

  // Built-in tokens

  datatype Builtin =
    | HttpVersion | ResponseTime | RemoteAddr | Date | Method | Url | Referrer | UserAgent | Status

  const BuiltinNames: set<string> := {
    "http-version", "response-time", "remote-addr", "date", "method",
    "url", "referrer", "referer", "user-agent", "status"
  }

  /** The built-in token a name denotes; both spellings of the referrer map to one. */
  function BuiltinOf(t: string): (r: Option<Builtin>)
    ensures r == Some(Referrer) <==> t == "referrer" || t == "referer"
    ensures r == Some(Status) <==> t == "status"
    ensures r.Some? <==> t in BuiltinNames
  {
    match t
    case "http-version" => Some(HttpVersion)
    case "response-time" => Some(ResponseTime)
    case "remote-addr" => Some(RemoteAddr)
    case "date" => Some(Date)
    case "method" => Some(Method)
    case "url" => Some(Url)
    case "referrer" => Some(Referrer)
    case "referer" => Some(Referrer)
    case "user-agent" => Some(UserAgent)
    case "status" => Some(Status)
    case _ => None
  }

  /** The name table: each of the ten names and the built-in it denotes. */
  lemma BuiltinTable()
    ensures BuiltinOf("http-version") == Some(HttpVersion)
    ensures BuiltinOf("response-time") == Some(ResponseTime)
    ensures BuiltinOf("remote-addr") == Some(RemoteAddr)
    ensures BuiltinOf("date") == Some(Date)
    ensures BuiltinOf("method") == Some(Method)
    ensures BuiltinOf("url") == Some(Url)
    ensures BuiltinOf("referrer") == Some(Referrer)
    ensures BuiltinOf("referer") == Some(Referrer)
    ensures BuiltinOf("user-agent") == Some(UserAgent)
    ensures BuiltinOf("status") == Some(Status)
  {
  }

  /** `fmt.Sprintf("%d.%d", major, minor)`. */
  function ProtoVersion(major: int, minor: int): (v: string)
    ensures '.' in v
    ensures ParseProtoVersion(v) == Some((major, minor))
    ensures CanonicalVersion(v)
  {
    VersionTextRoundTrip(major, minor);
    IntToString(major) + "." + IntToString(minor)
  }

  /** Splits a version string at its first `.`; the inverse of `ProtoVersion`. */
  function ParseProtoVersion(s: string): Option<(int, int)> {
    if exists i :: 0 <= i < |s| && s[i] == '.' then
      var i := FirstDot(s);
      match (ParseInt(s[..i]), ParseInt(s[i + 1..]))
      case (Some(a), Some(b)) => Some((a, b))
      case _ => None
    else None
  }

  /** Both numbers around the first `.` are written as `%d` writes them. */
  predicate CanonicalVersion(v: string) {
    (exists i :: 0 <= i < |v| && v[i] == '.') &&
    var i := FirstDot(v);
    Canonical(v[..i]) && Canonical(v[i + 1..])
  }

  function FirstDot(s: string): (i: nat)
    requires exists i :: 0 <= i < |s| && s[i] == '.'
    ensures i < |s| && s[i] == '.' && forall j :: 0 <= j < i ==> s[j] != '.'
  {
    if s[0] == '.' then 0
    else
      assert exists i :: 0 <= i < |s[1..]| && s[1..][i] == '.' by {
        var k :| 0 <= k < |s| && s[k] == '.';
        assert s[1..][k - 1] == '.';
      }
      1 + FirstDot(s[1..])
  }

  /** The two numbers joined by a `.` split back into the same numbers. */
  lemma VersionTextRoundTrip(major: int, minor: int)
    ensures var s := IntToString(major) + "." + IntToString(minor);
      '.' in s && ParseProtoVersion(s) == Some((major, minor)) && CanonicalVersion(s)
  {
    var a := IntToString(major);
    var s := a + "." + IntToString(minor);
    assert s[|a|] == '.';
    assert forall j :: 0 <= j < |a| ==> s[j] == a[j];
    var i := FirstDot(s);
    assert i == |a|;
    assert s[..i] == a;
    assert s[i + 1..] == IntToString(minor);
  }

  /** The version text is the only canonical spelling of its two numbers. */
  lemma {:induction false} ProtoVersionUnique(v: string, major: int, minor: int)
    requires CanonicalVersion(v) && ParseProtoVersion(v) == Some((major, minor))
    ensures v == ProtoVersion(major, minor)
  {
    var i := FirstDot(v);
    SplitAt(v, i);
    IntToStringUnique(v[..i], major);
    IntToStringUnique(v[i + 1..], minor);
  }

  /** A string is the part before a `.`, the `.`, and the part after it. */
  lemma {:induction false} SplitAt(v: string, i: nat)
    requires i < |v| && v[i] == '.'
    ensures v == v[..i] + "." + v[i + 1..]
  {
    assert v[..i] + "." + v[i + 1..] == v[..i] + v[i..];
  }

  /** The value of a built-in token; `status` reads the capture's code, and the
      time-derived tokens read the clock. */
  function BuiltinValue(b: Builtin, sw: StatusWriter, r: Request, clock: Clock, opts: LogOptions): (v: Value)
    ensures b == Status <==> v.Int?
    ensures b == ResponseTime <==> v.Seconds?
    ensures b == HttpVersion ==> v == Str(ProtoVersion(r.protoMajor, r.protoMinor))
    ensures b == ResponseTime ==> v == Seconds(clock.elapsed)
    ensures b == RemoteAddr ==> v == Str(r.remoteAddr)
    ensures b == Date ==> v == Str(clock.formatNow(opts.dateFormat))
    ensures b == Method ==> v == Str(r.httpMethod)
    ensures b == Url ==> v == Str(r.url)
    ensures b == Status ==> v == Int(sw.code)
    ensures b == Referrer ==> v == Str(HeaderGet(r.header, RefererHeader))
    ensures b == UserAgent ==> v == Str(HeaderGet(r.header, UserAgentHeader))
  {
    match b
    case HttpVersion => Str(ProtoVersion(r.protoMajor, r.protoMinor))
    case ResponseTime => Seconds(clock.elapsed)
    case RemoteAddr => Str(r.remoteAddr)
    case Date => Str(clock.formatNow(opts.dateFormat))
    case Method => Str(r.httpMethod)
    case Url => Str(r.url)
    case Referrer => Str(HeaderGet(r.header, RefererHeader))
    case UserAgent => Str(HeaderGet(r.header, UserAgentHeader))
    case Status => Int(sw.code)
  }

  // Header tokens: `req[Name]` and `res[Name]`

  datatype Direction = FromRequest | FromResponse

  datatype HeaderToken = HeaderToken(dir: Direction, name: string)

  /** A header name the token syntax can carry: non-empty, without `]`. */
  predicate ValidHeaderName(name: string) {
    |name| > 0 && ']' !in name
  }

  function HeaderTokenText(ht: HeaderToken): string {
    (if ht.dir == FromRequest then "req" else "res") + "[" + ht.name + "]"
  }

  /** Recognises the shape `(req|res)[X]` with `X` non-empty and free of `]`. */
  function ParseHeaderToken(t: string): (r: Option<HeaderToken>)
    ensures r.Some? ==> ValidHeaderName(r.value.name) && HeaderTokenText(r.value) == t
  {
    if |t| >= 6 && (t[..4] == "req[" || t[..4] == "res[") && t[|t| - 1] == ']' && ']' !in t[4..|t| - 1] then
      var dir := if t[..4] == "req[" then FromRequest else FromResponse;
      assert HeaderTokenText(HeaderToken(dir, t[4..|t| - 1])) == t[..4] + t[4..|t| - 1] + [t[|t| - 1]];
      assert t == t[..4] + t[4..|t| - 1] + [t[|t| - 1]];
      Some(HeaderToken(dir, t[4..|t| - 1]))
    else None
  }

  /** Every well-formed header token is recognised, so together with the
      contract of `ParseHeaderToken` a token is a header token exactly when it
      has the `(req|res)[X]` shape. */
  lemma HeaderTokenRoundTrip(ht: HeaderToken)
    requires ValidHeaderName(ht.name)
    ensures ParseHeaderToken(HeaderTokenText(ht)) == Some(ht)
  {
    var t := HeaderTokenText(ht);
    assert t[4..|t| - 1] == ht.name;
    assert t[..4] == (if ht.dir == FromRequest then "req[" else "res[");
  }

  /** `getPredefinedTokenValue`: built-in names first, then header tokens;
      `req` reads the request's headers, `res` the writer's header map. */
  function PredefinedTokenValue(t: string, sw: StatusWriter, r: Request, clock: Clock, opts: LogOptions): (v: Option<Value>)
    ensures BuiltinOf(t).Some? ==> v == Some(BuiltinValue(BuiltinOf(t).value, sw, r, clock, opts))
    ensures BuiltinOf(t).None? && ParseHeaderToken(t).Some? ==>
      var ht := ParseHeaderToken(t).value;
      v == Some(Str(HeaderGet(if ht.dir == FromRequest then r.header else sw.inner.header, ht.name)))
    ensures v.None? <==> BuiltinOf(t).None? && ParseHeaderToken(t).None?
  {
    match BuiltinOf(t)
    case Some(b) => Some(BuiltinValue(b, sw, r, clock, opts))
    case None =>
      match ParseHeaderToken(t)
      case Some(HeaderToken(FromRequest, name)) => Some(Str(HeaderGet(r.header, name)))
      case Some(HeaderToken(FromResponse, name)) => Some(Str(HeaderGet(sw.inner.header, name)))
      case None => None
  }

  /** The value logged for an unknown token. */
  const Placeholder := "?"

  /** One token's value: a predefined value, else a non-nil custom function's
      result, else the placeholder. */
  function ResolveToken(t: string, sw: StatusWriter, r: Request, clock: Clock, opts: LogOptions): (v: Value)
    ensures PredefinedTokenValue(t, sw, r, clock, opts).Some? ==> v == PredefinedTokenValue(t, sw, r, clock, opts).value
    ensures PredefinedTokenValue(t, sw, r, clock, opts).None? && t in opts.customTokens && opts.customTokens[t].Some? ==>
      v == Str(opts.customTokens[t].value(sw, r))
    ensures PredefinedTokenValue(t, sw, r, clock, opts).None? && (t !in opts.customTokens || opts.customTokens[t].None?) ==>
      v == Str(Placeholder)
  {
    match PredefinedTokenValue(t, sw, r, clock, opts)
    case Some(v) => v
    case None =>
      if t in opts.customTokens && opts.customTokens[t].Some? then Str(opts.customTokens[t].value(sw, r))
      else Str(Placeholder)
  }

  /** A custom token can never override a built-in or a header token: for
      those names the custom-token map is not consulted at all. */
  lemma CustomTokensNeverShadowPredefined(t: string, sw: StatusWriter, r: Request, clock: Clock, opts: LogOptions,
                                          custom: map<string, Option<CustomToken>>)
    requires BuiltinOf(t).Some? || ParseHeaderToken(t).Some?
    ensures ResolveToken(t, sw, r, clock, opts.(customTokens := custom)) == ResolveToken(t, sw, r, clock, opts)
  {
  }

  /** Both spellings of the referrer token, and the request-header token for
      `Referer`, log the same value. */
  lemma ReferrerSpellingsAgree(sw: StatusWriter, r: Request, clock: Clock, opts: LogOptions)
    ensures ResolveToken("referrer", sw, r, clock, opts) == ResolveToken("referer", sw, r, clock, opts)
    ensures ResolveToken("referer", sw, r, clock, opts) == ResolveToken("req[Referer]", sw, r, clock, opts)
  {
    BuiltinTable();
    HeaderTokenRoundTrip(HeaderToken(FromRequest, RefererHeader));
    assert HeaderTokenText(HeaderToken(FromRequest, RefererHeader)) == "req[Referer]";
  }
}
