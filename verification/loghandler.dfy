/** The logging middleware: installs the status capture once per chain, runs
    the wrapped handler, and emits exactly one line, before or after it. */
module LogHandler {
  import opened Writers
  import opened StatusCapture
  import opened Tokens
  import opened LogFormat

  /** What serving one request amounts to, as seen from outside a handler:
      the calls it made on the writer it was handed (in order), the log lines
      emitted while it ran, whether it ended in a panic, and the request as
      the handler left it (a handler receives the request by pointer and may
      change it). */
  datatype Outcome = Outcome(calls: seq<Call>, logs: seq<LogLine>, panicked: bool, request: Request)

  /** A request handler, described by its outcome for a writer and a request. */
  type Handler = (Writer, Request) -> Outcome

  /** The function `LogHandler(h, opts)` returns, applied to one request.
      `clock` is read when the line is produced. */
  function Serve(h: Handler, opts: LogOptions, clock: Clock, w: Writer, r: Request): (o: Outcome)
    // A capture already in the chain: forward the writer untouched, log nothing.
    ensures GetStatusWriter(w).Some? ==> o == h(w, r)
    // Otherwise: the handler sees one status layer on top of w, its calls,
    // panic and changes to the request pass through, and exactly one line is
    // added.
    ensures GetStatusWriter(w).None? ==>
      var inner := h(AsWriter(Install(w)), r);
      && o.calls == inner.calls
      && o.panicked == inner.panicked
      && o.request == inner.request
      && |o.logs| == |inner.logs| + 1
    // Immediate: the line comes first and sees the capture as just installed
    // and the request as it arrived.
    ensures GetStatusWriter(w).None? && opts.immediate ==>
      var inner := h(AsWriter(Install(w)), r);
      o.logs == [LogRequest(Install(w), r, clock, opts)] + inner.logs
    // Deferred: the line comes last, even after a panic, and sees the capture
    // after every call the handler made and the request as the handler left it.
    ensures GetStatusWriter(w).None? && !opts.immediate ==>
      var inner := h(AsWriter(Install(w)), r);
      o.logs == inner.logs + [LogRequest(Replay(Install(w), inner.calls), inner.request, clock, opts)]
  {
    if GetStatusWriter(w).Some? then
      h(w, r)
    else
      var stw := Install(w);
      var inner := h(AsWriter(stw), r);
      if opts.immediate then
        Outcome(inner.calls, [LogRequest(stw, r, clock, opts)] + inner.logs, inner.panicked, inner.request)
      else
        Outcome(inner.calls, inner.logs + [LogRequest(Replay(stw, inner.calls), inner.request, clock, opts)],
                inner.panicked, inner.request)
  }

  /** `LogHandler(h, opts)` as a handler value: on a chain that already has a
      capture it behaves exactly like `h`; otherwise it runs `h` on the chain
      with a capture on top, passes its calls, panic and request changes
      through, and adds one line. */
  function Wrap(h: Handler, opts: LogOptions, clock: Clock): (f: Handler)
    ensures forall w: Writer, r: Request :: GetStatusWriter(w).Some? ==> f(w, r) == h(w, r)
    ensures forall w: Writer, r: Request :: GetStatusWriter(w).None? ==>
      && f(w, r).calls == h(AsWriter(Install(w)), r).calls
      && f(w, r).panicked == h(AsWriter(Install(w)), r).panicked
      && f(w, r).request == h(AsWriter(Install(w)), r).request
      && |f(w, r).logs| == |h(AsWriter(Install(w)), r).logs| + 1
  {
    (w: Writer, r: Request) => Serve(h, opts, clock, w, r)
  }

  /** Nesting the middleware logs once per request, not twice: the inner
      instance finds the outer one's capture and forwards untouched. */
  lemma NestedLogHandlersLogOnce(h: Handler, inner: LogOptions, outer: LogOptions, clock: Clock, w: Writer, r: Request)
    requires GetStatusWriter(w).None?
    ensures var o := Wrap(Wrap(h, inner, clock), outer, clock)(w, r);
      var base := h(AsWriter(Install(w)), r);
      && |o.logs| == |base.logs| + 1
      && o.calls == base.calls
  {
  }

  /** A chain that already has a capture gains no log line from any number of
      nested instances. */
  lemma AlreadyCapturedLogsNothing(h: Handler, opts: LogOptions, clock: Clock, w: Writer, r: Request)
    requires GetStatusWriter(w).Some?
    ensures Wrap(Wrap(h, opts, clock), opts, clock)(w, r) == h(w, r)
  {
  }

  /** The deferred line reports the code the capture ended with; the
      immediate line reports the unset sentinel. */
  lemma LoggedStatus(h: Handler, opts: LogOptions, clock: Clock, w: Writer, r: Request, i: nat)
    requires GetStatusWriter(w).None?
    requires i < |SelectFormat(opts).tokens| && SelectFormat(opts).tokens[i] == "status"
    ensures var o := Serve(h, opts, clock, w, r);
      var base := h(AsWriter(Install(w)), r);
      && (opts.immediate ==> o.logs[0].args[i] == Int(Unset))
      && (!opts.immediate ==> o.logs[|o.logs| - 1].args[i] == Int(FinalCode(Unset, base.calls)))
  {
    var base := h(AsWriter(Install(w)), r);
    ReplayMeaning(Install(w), base.calls);
  }

  /** The request a line reads depends on when it is written: the immediate
      tiny line shows the URL the request arrived with, the deferred one the
      URL the handler left in it. */
  lemma LoggedUrl(h: Handler, opts: LogOptions, clock: Clock, w: Writer, r: Request)
    requires GetStatusWriter(w).None? && opts.format == Ltiny
    ensures var o := Serve(h, opts, clock, w, r);
      var base := h(AsWriter(Install(w)), r);
      && (opts.immediate ==> o.logs[0].args[1] == Str(r.url))
      && (!opts.immediate ==> o.logs[|o.logs| - 1].args[1] == Str(base.request.url))
  {
    var base := h(AsWriter(Install(w)), r);
    if opts.immediate {
      TinyArguments(Install(w), r, clock, opts);
    } else {
      TinyArguments(Replay(Install(w), base.calls), base.request, clock, opts);
    }
  }
}
