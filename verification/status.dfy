/** The status-capturing writer that the logging middleware installs: it
    records the status code the handler sends (0 while none is known) and
    forwards every call unchanged to the writer it wraps. */
module StatusCapture {
  import opened Wrappers
  import opened Writers

  /** The sentinel for "no status code recorded yet". */
  const Unset: int := 0

  /** `http.StatusOK`, assumed once a body is written with no code set. */
  const StatusOK: int := 200

  datatype StatusWriter = StatusWriter(inner: Writer, code: int)

  /** `&statusResponseWriter{w, 0}`: a fresh capture around `w`. */
  function Install(w: Writer): (sw: StatusWriter)
    ensures sw.inner == w && sw.code == Unset
  {
    StatusWriter(w, Unset)
  }

  /** The capture seen as a writer: one status layer on top of the inner chain,
      sharing its header map and its connection. */
  function AsWriter(sw: StatusWriter): (w: Writer)
    ensures w.layers == [StatusLayer] + sw.inner.layers
    ensures w.header == sw.inner.header && w.sent == sw.inner.sent
    ensures GetStatusWriter(w) == Some(0)
    ensures Unwrap(w) == Some(sw.inner)
  {
    Writer([StatusLayer] + sw.inner.layers, sw.inner.header, sw.inner.sent)
  }

  /** `WriteHeader`: the code becomes `c` whatever it was, and the call is
      passed on. */
  function WriteHeader(sw: StatusWriter, c: int): (sw': StatusWriter)
    ensures sw'.code == c
    ensures sw'.inner == Deliver(sw.inner, WriteHeaderCall(c))
  {
    StatusWriter(Deliver(sw.inner, WriteHeaderCall(c)), c)
  }

  /** `Write`: a body write with no code recorded implies 200; a recorded code
      is kept. The bytes are passed on. */
  function Write(sw: StatusWriter, data: seq<bv8>): (sw': StatusWriter)
    ensures sw.code == Unset ==> sw'.code == StatusOK
    ensures sw.code != Unset ==> sw'.code == sw.code
    ensures sw'.inner == Deliver(sw.inner, WriteCall(data))
  {
    StatusWriter(Deliver(sw.inner, WriteCall(data)), if sw.code == Unset then StatusOK else sw.code)
  }

  /** `Header().Set`: the embedded writer's header map is shared, so the
      assignment lands there; the code is untouched. */
  function SetHeader(sw: StatusWriter, name: string, value: string): (sw': StatusWriter)
    ensures sw'.code == sw.code
    ensures sw'.inner == Deliver(sw.inner, SetHeaderCall(name, value))
  {
    sw.(inner := Deliver(sw.inner, SetHeaderCall(name, value)))
  }

  /** `WrappedWriter`: exactly the writer the capture was installed around. */
  function WrappedWriter(sw: StatusWriter): (w: Writer)
    ensures Unwrap(AsWriter(sw)) == Some(w)
  {
    sw.inner
  }

  function Step(sw: StatusWriter, c: Call): StatusWriter {
    match c
    case WriteHeaderCall(code) => WriteHeader(sw, code)
    case WriteCall(data) => Write(sw, data)
    case SetHeaderCall(n, v) => SetHeader(sw, n, v)
  }

  /** The capture after the handler has made `calls` on it, in order. */
  function Replay(sw: StatusWriter, calls: seq<Call>): (r: StatusWriter)
    decreases |calls|
  {
    if calls == [] then sw else Step(Replay(sw, calls[..|calls| - 1]), calls[|calls| - 1])
  }

  // An independent description of the captured code.

  predicate HasWrite(calls: seq<Call>) {
    exists i :: 0 <= i < |calls| && calls[i].WriteCall?
  }

  /** The position of the last `WriteHeader` call, if any. */
  function LastWriteHeader(calls: seq<Call>): (r: Option<nat>)
    ensures r.Some? ==> r.value < |calls| && calls[r.value].WriteHeaderCall?
    ensures r.Some? ==> forall j :: r.value < j < |calls| ==> !calls[j].WriteHeaderCall?
    ensures r.None? ==> forall j :: 0 <= j < |calls| ==> !calls[j].WriteHeaderCall?
  {
    if calls == [] then None
    else if calls[|calls| - 1].WriteHeaderCall? then Some(|calls| - 1)
    else LastWriteHeader(calls[..|calls| - 1])
  }

  /** The code the capture ends with, starting from `start`: the last code
      explicitly set (or `start` when none was), except that a still-unset
      code becomes 200 when a body write follows it. */
  function FinalCode(start: int, calls: seq<Call>): int {
    match LastWriteHeader(calls)
    case None => if start == Unset && HasWrite(calls) then StatusOK else start
    case Some(k) =>
      var c := calls[k].code;
      if c == Unset && HasWrite(calls[k + 1..]) then StatusOK else c
  }

  /** Replaying calls through the capture is transparent to the inner writer,
      and the recorded code is the one `FinalCode` describes. */
  lemma {:induction false} ReplayMeaning(sw: StatusWriter, calls: seq<Call>)
    ensures Replay(sw, calls).inner == DeliverAll(sw.inner, calls)
    ensures Replay(sw, calls).code == FinalCode(sw.code, calls)
    decreases |calls|
  {
    if calls != [] {
      var n := |calls| - 1;
      var pre := calls[..n];
      ReplayMeaning(sw, pre);
      DeliverAllSnoc(sw.inner, pre, calls[n]);
      assert pre + [calls[n]] == calls;
      FinalCodeSnoc(sw.code, pre, calls[n]);
    }
  }

  lemma {:induction false} DeliverAllSnoc(w: Writer, calls: seq<Call>, c: Call)
    ensures DeliverAll(w, calls + [c]) == Deliver(DeliverAll(w, calls), c)
    decreases |calls|
  {
    if calls != [] {
      assert (calls + [c])[1..] == calls[1..] + [c];
      DeliverAllSnoc(Deliver(w, calls[0]), calls[1..], c);
    }
  }

  lemma FinalCodeSnoc(start: int, calls: seq<Call>, c: Call)
    ensures FinalCode(start, calls + [c]) ==
      match c
      case WriteHeaderCall(x) => x
      case WriteCall(_) => if FinalCode(start, calls) == Unset then StatusOK else FinalCode(start, calls)
      case SetHeaderCall(_, _) => FinalCode(start, calls)
  {
  }
}
