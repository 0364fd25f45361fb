# Logging middleware and template registry of ghost, in Dafny

This project models two pieces of the ghost HTTP toolkit as pure functions over immutable datatypes, and proves properties of them.

**The logging middleware** (`handlers/log.go`):

- A *status-capturing writer* records the status code a handler sends. The code starts at the sentinel `0`. `WriteHeader` overwrites it. The first body `Write` with no code set turns it into 200. Every call passes on unchanged to the wrapped writer.
- A *writer chain* is a sequence of layers, outermost first. Each layer may reveal the writer it wraps. `getStatusWriter` searches the chain for a capture. The search only goes deeper through layers that reveal their inner writer.
- *Token resolution* tries, in order:
  1. the built-in names;
  2. the `req[Name]` / `res[Name]` header tokens;
  3. the caller's non-nil custom token functions;
  4. the placeholder `"?"`.
- *Format selection* works as follows. The names `_default_`, `_short_` and `_tiny_` replace both the format string and the token list. Any other format is used literally with the caller's tokens.
- `LogHandler` handles one request as follows:
  - If the chain already has a capture, it forwards the writer untouched and logs nothing.
  - Otherwise it installs one capture and emits exactly one line. The line comes before the handler runs when `Immediate` is set. Otherwise it comes after the handler, including after a panic, and reads the request as the handler left it.
  - A log line is kept as the pair (format string, resolved arguments) handed to `Printf`.

**The template registry** (`app.go`):

- `RegisterTemplateCompiler` stores compilers under the extension exactly as given.
- `compileTemplate` looks a compiler up under the lower-cased `path.Ext` of the path.
- A missing compiler is a silent no-op.
- A compile error is returned and stores nothing.
- A compiled template is stored under the lower-cased path.

Modules, one per concern:

- `Wrappers` (`wrappers.dfy`): `Option` and `Result`.
- `Strings` (`strings.dfy`): ASCII lower-casing and decimal integers.
- `Paths` (`paths.dfy`): `path.Ext`.
- `Writers` (`writers.dfy`): layers, writers, calls and the chain search.
- `StatusCapture` (`status.dfy`): the status-capturing writer.
- `Tokens` (`tokens.dfy`): requests, options, the clock and token resolution.
- `LogFormat` (`logformat.dfy`): the predefined formats, format selection and `logRequest`.
- `LogHandler` (`loghandler.dfy`): the middleware.
- `Templates` (`templates.dfy`): the registry.

Some parts have no direct counterpart in the source:

- A *handler* is described by its outcome for a writer and a request. The outcome holds the calls it made on the writer (`WriteHeader`, `Write`, `Header().Set`), the log lines emitted while it ran, and whether it panicked.
- The time readings (`time.Now()`) enter as a `Clock` value. It holds the seconds elapsed since the request started and a function that renders "now" in a given layout.
- A template compiler is an abstract function from a path to a template or an error.

## Model

| member | source | states |
|---|---|---|
| StatusCapture.Install | handlers/log.go:104 | a freshly installed capture wraps exactly the given writer and holds the unset code 0 |
| StatusCapture.AsWriter | handlers/log.go:46-49 | the capture, seen as a writer, is one status layer on top of the inner chain; it shares the inner header map and connection; a chain search finds it at depth 0; unwrapping it gives back the inner writer |
| StatusCapture.WriteHeader | handlers/log.go:52-55 | the code becomes the given code whatever it was before, and the wrapped writer receives exactly that WriteHeader call |
| StatusCapture.Write | handlers/log.go:58-63 | a body write turns an unset code into 200 and leaves a recorded code unchanged; the wrapped writer receives exactly that write |
| StatusCapture.SetHeader | handlers/log.go:46-49 | a header assignment through the capture lands in the shared header map and leaves the code alone |
| StatusCapture.WrappedWriter | handlers/log.go:66-68 | what is returned is exactly the writer that unwrapping the capture's chain yields |
| StatusCapture.ReplayMeaning | handlers/log.go:52-63 | after any sequence of calls, the inner writer is as if the calls had gone to it directly, and the code equals an independent definition: the last code set explicitly, or 200 when a body write follows while the code is still 0 |
| Writers.HeaderGet | handlers/log.go:145 | a header present in the map reads as its value and a missing one reads as the empty string |
| Writers.Deliver | handlers/log.go:54 | at the underlying writer, a header assignment changes only that header's value, and status and body writes are added to what was sent, in order |
| Writers.Unwrap | handlers/log.go:66-68 | a writer reveals an inner writer exactly when its outermost layer can unwrap; the inner writer is the chain minus that layer |
| Writers.FindLayer | handlers/log.go:194-197 | the result is the outermost layer satisfying the predicate among the layers the search can reach, or none when no reachable layer satisfies it; the search passes only through layers that reveal their inner writer |
| Writers.GetStatusWriter | handlers/log.go:193-202 | the capture found is the outermost status layer, reached only through other layers that unwrap; when none is found, no reachable layer is a capture |
| Tokens.NewLogOptions | handlers/log.go:81-89 | the options keep the given format and tokens, have an empty custom-token map, log after the handler, and use the RFC 3339 date layout |
| Tokens.BuiltinOf | handlers/log.go:120-139 | a name is built-in exactly when it is one of the ten listed names; `referrer` and `referer` both denote the referrer, and only `status` denotes the status |
| Tokens.BuiltinTable | handlers/log.go:120-139 | each of the ten names denotes its built-in, with `referrer` and `referer` both denoting the referrer |
| Tokens.BuiltinValue | handlers/log.go:120-139 | `http-version` gives the version text; `response-time` gives the elapsed seconds and is the only number of seconds; `remote-addr`, `method` and `url` give the request's fields; `date` gives the clock's rendering in the configured layout; the referrer and user-agent tokens read the request's `Referer` and `User-Agent` headers; `status` gives the capture's integer code and is the only integer |
| Tokens.ProtoVersion | handlers/log.go:121-122 | the `http-version` text contains a `.`, and splitting it at its first `.` and parsing both halves as decimal integers gives back the request's major and minor protocol numbers; neither half has a leading zero (`HTTP/1.1` yields `1.1`, never `01.01`) |
| Tokens.ProtoVersionUnique | handlers/log.go:121-122 | any text whose two halves around the first `.` are written without leading zeros and parse back as the request's major and minor numbers is exactly the `http-version` value |
| Strings.IntToString | handlers/log.go:122 | the `%d` rendering of an integer is decimal digits, with a leading `-` when negative, and parses back to the same integer; it has no leading zero, so `0` is the only rendering that starts with `0` and a `-` is never followed by `0` |
| Strings.IntToStringUnique | handlers/log.go:122 | the `%d` rendering is the only spelling of an integer without leading zeros: any such string that parses back as `n` is the rendering of `n` |
| Tokens.ParseHeaderToken | handlers/log.go:23 | a recognised header token always has the form `req[X]` or `res[X]`, with X non-empty and free of `]` |
| Tokens.HeaderTokenRoundTrip | handlers/log.go:23 | every `req[X]` or `res[X]` with X non-empty and free of `]` is recognised, with its direction and name; with the contract above, this is the if-and-only-if |
| Tokens.PredefinedTokenValue | handlers/log.go:117-153 | built-in names come first; a header token reads the request's headers for `req` and the writer's header map for `res`; there is no value exactly when the name is neither a built-in nor a header token |
| Tokens.ResolveToken | handlers/log.go:181-187 | a predefined value wins; otherwise a non-nil custom function's result is used; otherwise the placeholder `?` |
| Tokens.CustomTokensNeverShadowPredefined | handlers/log.go:181-182 | for a built-in or header token, replacing the whole custom-token map does not change the resolved value |
| Tokens.ReferrerSpellingsAgree | handlers/log.go:133-134 | `referrer`, `referer` and `req[Referer]` resolve to the same value |
| LogFormat.PredefinedTokensKnown | handlers/log.go:26-42 | every token in the three predefined token lists is a built-in name or a header token |
| LogFormat.PredefinedLineIgnoresCustomTokens | handlers/log.go:172-188 | for a predefined format, replacing the whole custom-token map leaves the line unchanged, and every argument is a predefined value, so neither a custom function nor the placeholder is used |
| LogFormat.SelectFormat | handlers/log.go:172-178 | a predefined name selects that entry's format and token list; any other format string is used literally with the caller's tokens |
| LogFormat.SelectPredefined | handlers/log.go:26-42 | each of the names `_default_`, `_short_` and `_tiny_` selects its own entry of the predefined table: its format string and its token list |
| LogFormat.PredefinedIgnoresTokens | handlers/log.go:172-174 | for the three predefined names, the caller's tokens do not affect the selection, and the format used is not the name itself |
| LogFormat.ResolveArgs | handlers/log.go:179-188 | there is one argument per token, and argument i is token i resolved on its own, so one unknown token never stops the rest |
| LogFormat.LogRequest | handlers/log.go:156-190 | the line carries the selected format, with as many arguments as the selected tokens, argument i resolved from token i |
| LogFormat.BuiltinArgument | handlers/log.go:179-181 | argument i of any line whose token i is a built-in name is that built-in's value |
| LogFormat.HeaderArgument | handlers/log.go:141-150 | argument i of any line whose token i is a header token is that header's value, from the request for `req` and from the writer's header map for `res` |
| LogFormat.DefaultArguments | handlers/log.go:30-33 | the default line has nine arguments: client address, date, method, URL, version text, status code, the response's `Content-Length`, referrer and user agent, in that order |
| LogFormat.ShortArguments | handlers/log.go:34-37 | the short line has seven arguments: client address, method, URL, version text, status code, the response's `Content-Length` and elapsed seconds, in that order |
| LogFormat.TinyArguments | handlers/log.go:38-41 | the tiny line has five arguments: method, URL, status code, the response's `Content-Length` and elapsed seconds, in that order |
| LogFormat.DefaultArgumentKinds | handlers/log.go:30-33 | the default line's nine arguments are strings except the sixth, an integer; the conversions of the format literal, read off by hand, are eight `%s` with `%d` sixth, which the model does not parse |
| LogFormat.ShortArgumentKinds | handlers/log.go:34-37 | the short line's seven arguments are strings except an integer fifth and seconds last; the literal's conversions, read off by hand, are `%s` with `%d` fifth and `%.3f` last |
| LogFormat.TinyArgumentKinds | handlers/log.go:38-41 | the tiny line's five arguments are string, string, integer, string, seconds; the literal's conversions, read off by hand, are `%s %s %d %s` and `%.3f` |
| LogFormat.TokenKind | handlers/log.go:120-186 | for every token name, the value is an integer exactly when the name is `status` and elapsed seconds exactly when it is `response-time`; every other name (built-in, header, custom or unknown) gives a string |
| LogFormat.TinyLineExample | handlers/log.go:38-41 | the tiny line for GET `/x`, status 200, a content length of 5 and 0.002 s has exactly the arguments GET, /x, 200, 5, 0.002 |
| LogFormat.DefaultLineExample | handlers/log.go:30-33 | the default line for POST `/a` over HTTP/1.1 with status 404, content length 0, no referrer and user agent curl has exactly the expected nine arguments, including the version text `1.1` and an empty referrer |
| LogHandler.Serve | handlers/log.go:92-114 | with a capture already in the chain, the handler runs on the untouched writer and nothing is logged; otherwise the handler sees one capture layer on top, its calls, panic and changes to the request pass through, and exactly one line is added: first, seeing the fresh capture and the request as it arrived, when immediate; otherwise last, seeing the capture after all the handler's calls and the request as the handler left it |
| LogHandler.Wrap | handlers/log.go:92-114 | the handler value behaves exactly like the wrapped handler on a chain that already has a capture; on any other chain it passes the wrapped handler's calls, panic and request changes through and adds exactly one line |
| LogHandler.NestedLogHandlersLogOnce | handlers/log.go:95-99 | two nested middleware instances on a chain without a capture add exactly one line between them, and pass the handler's calls through |
| LogHandler.AlreadyCapturedLogsNothing | handlers/log.go:95-99 | on a chain that already has a capture, nested instances behave exactly like the bare handler |
| LogHandler.LoggedStatus | handlers/log.go:104-112 | a `status` argument of the immediate line is the unset code 0; in the deferred line it is the code the capture ended with after the handler's calls |
| LogHandler.LoggedUrl | handlers/log.go:106-112 | the `url` argument of an immediate tiny line is the URL the request arrived with; in a deferred line it is the URL the handler left in the request, since the deferred call reads the shared request after the handler returns |
| Paths.Ext | app.go:53 | the extension is empty exactly when the last path element has no `.`; otherwise it is the suffix of the path starting at that element's last `.` |
| Strings.ToLower | app.go:53 | lower-casing keeps the length, maps each character independently and leaves no upper-case letter |
| Strings.ToLowerIdempotent | app.go:62-69 | lower-casing twice gives the same string as once |
| Templates.RegisterTemplateCompiler | app.go:40-44 | the compiler is stored under the extension as given, replacing any earlier one; every other compiler and all templates are unchanged |
| Templates.CompileTemplates | app.go:46-48 | it returns no error and leaves the registry unchanged |
| Templates.AddTemplater | app.go:66-70 | the template is stored under the lower-cased path; every other template and all compilers are unchanged |
| Templates.CompilerKey | app.go:53 | the lookup key is the extension of the path (from its last `.` after the last `/`), lower-cased character by character, so it has the same length, no upper-case letter, and is empty or starts with `.` |
| Templates.CompileTemplate | app.go:50-64 | with no compiler for the lower-cased extension, it returns no error and changes nothing; a compile error is returned and changes nothing; a compiled template is stored under the lower-cased path with no error, and every other entry is unchanged |
| Templates.AddTemplaterLowerCasesOnce | app.go:62-69 | storing under an already lower-cased path gives the same registry as storing under the original path |
| Templates.UpperCaseKeyNeverUsed | app.go:43-54 | a compiler registered under a key containing an upper-case letter never changes any compilation's error or stored templates |

## Left out

- Locking: the `sync.RWMutex` fields of `App` and concurrent requests are not modelled. Every operation is one atomic step.
- Printing: the log sink is not modelled. This covers the `Logger` field, the fallback to the process-wide logger and `Printf` rendering. A line is the (format, arguments) pair passed to `Printf`.
- Time: `time.Now()` is a parameter. `response-time` is the elapsed seconds as an exact real, not a float64. `date` is whatever the clock's formatting function returns for the configured layout.
- `Writers.HeaderGet`: `net/http` canonicalises header names on `Get`/`Set`, so `content-length` and `Content-Length` name the same header. The model compares names exactly.
- `net/http` request internals: `URL.String()` is the request's `url` field. `Referer()` and `UserAgent()` are reads of the `Referer` and `User-Agent` request headers.
- The inner writer's return values: `Write`'s `(int, error)` result from the wrapped writer is not modelled. Only the call itself is recorded.
- The generic `GetResponseWriter` is not part of this model. Its chain walk is modelled as `Writers.FindLayer` over a finite list of layers. The number of steps the walk takes is not modelled.
- `Strings.ToLower`: only ASCII `A`–`Z` are mapped. Go's `strings.ToLower` also lower-cases other Unicode letters.
- The regular expression engine: `rxHeaders` is modelled directly as the string predicate `Tokens.ParseHeaderToken`.
- `templates/amber.go`: a wrapper around an external compiler. A compiler is an abstract function from a path to a template or an error.
- `App` construction: the `compilers` and `templates` maps start as given in the model, and every model map accepts writes. In the source, `new(ghost.App)` (the usage in the comment at app.go:13) leaves both maps nil, so the map writes at app.go:43 and app.go:69 would panic. The source never shows where the maps are created.
- `Templates.CompileTemplate`: a registered compiler is always callable. In the source, a nil `TemplateCompiler` registered under an extension panics at app.go:58 when called. Custom tokens differ: the source checks them for nil, so `Tokens.LogOptions` holds them as `Option`.
- `Writers.Deliver`: every layer other than a capture forwards calls unchanged to the writer it wraps, and every layer shares one header map. A real wrapping writer may alter, buffer or drop calls, or keep a header map of its own.
- `Writers.Call`: a header change is only a whole-value assignment, as `Header().Set` does, and `Writers.HeaderGet` reads that one value. In `net/http` a header holds a list of values and `Get` returns the first. Appending values with `Add`, removing with `Del`, and editing the map directly are not expressible.
- `LogHandler.Serve`: the capture records only the calls that reach it. A handler is described by the calls it makes on the writer it is handed, and all of them pass through the capture. In the source, a handler or a lower middleware can call `WrappedWriter()` (handlers/log.go:66-68) and write to an inner writer directly. That write reaches the client but does not update the captured status code, so the deferred line can show a code other than the one sent. This bypass is not expressible in the model.
- `http.Server`, `App.H` and `App.Env`: not modelled.
