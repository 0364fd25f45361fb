/** The response-writer chain: middleware layers wrap one another, each may
    reveal the writer it wraps, and a search walks the chain outermost-first. */
module Writers {
  import opened Wrappers

  /** A header map as the logger reads it: names are compared exactly and a
      missing name reads as the empty string. */
  type Header = map<string, string>

  function HeaderGet(h: Header, name: string): (v: string)
    ensures name in h ==> v == h[name]
    ensures name !in h ==> v == ""
  {
    if name in h then h[name] else ""
  }

  /** What a handler does to the writer it was handed. */
  datatype Call =
    | WriteHeaderCall(code: int)
    | WriteCall(data: seq<bv8>)
    | SetHeaderCall(name: string, value: string)

  /** One wrapper in the chain: the status-capturing writer of the logging
      middleware, or some other middleware's writer, which may or may not
      implement the unwrap capability. */
  datatype Layer = StatusLayer | OtherLayer(canUnwrap: bool)

  predicate Reveals(l: Layer) {
    l.StatusLayer? || l.canUnwrap
  }

  predicate IsStatusLayer(l: Layer) {
    l.StatusLayer?
  }

  /** A writer: its chain of layers (`layers[0]` outermost, each wrapping the
      next), the header map they all share, and the writes that have reached
      the underlying connection so far. */
  datatype Writer = Writer(layers: seq<Layer>, header: Header, sent: seq<Call>)

  /** The effect of one call once it reaches the writer underneath: header
      assignments go to the shared header map, status and body writes are sent. */
  function Deliver(w: Writer, c: Call): (w': Writer)
    ensures w'.layers == w.layers
    ensures c.SetHeaderCall? ==> w'.sent == w.sent && HeaderGet(w'.header, c.name) == c.value
    ensures c.SetHeaderCall? ==> forall n :: n != c.name ==> HeaderGet(w'.header, n) == HeaderGet(w.header, n)
    ensures !c.SetHeaderCall? ==> w'.sent == w.sent + [c] && w'.header == w.header
  {
    match c
    case SetHeaderCall(n, v) => w.(header := w.header[n := v])
    case _ => w.(sent := w.sent + [c])
  }

  function DeliverAll(w: Writer, calls: seq<Call>): (w': Writer)
    ensures w'.layers == w.layers
    decreases |calls|
  {
    if calls == [] then w else DeliverAll(Deliver(w, calls[0]), calls[1..])
  }

  /** The writer one level down, when the outermost layer reveals it. */
  function Unwrap(w: Writer): (r: Option<Writer>)
    ensures r.Some? <==> |w.layers| > 0 && Reveals(w.layers[0])
    ensures r.Some? ==> [w.layers[0]] + r.value.layers == w.layers
    ensures r.Some? ==> r.value.header == w.header && r.value.sent == w.sent
  {
    if |w.layers| > 0 && Reveals(w.layers[0]) then Some(w.(layers := w.layers[1..])) else None
  }

  /** How many layers a chain search can test: it goes deeper only through
      layers that reveal their inner writer. */
  function Reachable(layers: seq<Layer>): (n: nat)
    ensures n <= |layers|
    ensures |layers| > 0 ==> n > 0
    ensures forall j :: 0 <= j < n - 1 ==> Reveals(layers[j])
    ensures n < |layers| ==> !Reveals(layers[n - 1])
  {
    if layers == [] then 0
    else if !Reveals(layers[0]) then 1
    else 1 + Reachable(layers[1..])
  }

  /** The chain search from depth `i`: test the layer, and when it does not
      match, continue into the writer it reveals, if any. */
  function FindFrom(layers: seq<Layer>, p: Layer -> bool, i: nat): (r: Option<nat>)
    requires i <= |layers|
    ensures r.Some? ==> i <= r.value < |layers| && p(layers[r.value])
    ensures r.Some? ==> forall j :: i <= j < r.value ==> !p(layers[j]) && Reveals(layers[j])
    decreases |layers| - i
  {
    if i == |layers| then None
    else if p(layers[i]) then Some(i)
    else if Reveals(layers[i]) then FindFrom(layers, p, i + 1)
    else None
  }

  /** The generic chain search: the depth of the outermost layer satisfying `p`
      among the layers the search can reach, or `None` when there is none. */
  function FindLayer(layers: seq<Layer>, p: Layer -> bool): (r: Option<nat>)
    ensures r.Some? ==> r.value < Reachable(layers) && p(layers[r.value])
    ensures r.Some? ==> forall j :: 0 <= j < r.value ==> !p(layers[j])
    ensures r.None? ==> forall j :: 0 <= j < Reachable(layers) ==> !p(layers[j])
  {
    FindFromComplete(layers, p, 0);
    FindFrom(layers, p, 0)
  }

  /** The search from depth `i`, entered through revealing layers only,
      stays within reach and misses no reachable match. */
  lemma {:induction false} FindFromComplete(layers: seq<Layer>, p: Layer -> bool, i: nat)
    requires i <= |layers|
    requires forall j :: 0 <= j < i ==> Reveals(layers[j])
    ensures FindFrom(layers, p, i).Some? ==> FindFrom(layers, p, i).value < Reachable(layers)
    ensures FindFrom(layers, p, i).None? ==> forall j :: i <= j < Reachable(layers) ==> !p(layers[j])
    decreases |layers| - i
  {
    if i < |layers| && !p(layers[i]) && Reveals(layers[i]) {
      FindFromComplete(layers, p, i + 1);
    }
  }

  /** `getStatusWriter`: the depth of the status-capturing writer in the chain. */
  function GetStatusWriter(w: Writer): (r: Option<nat>)
    ensures r.Some? ==> r.value < |w.layers| && w.layers[r.value] == StatusLayer
    ensures r.Some? ==> forall j :: 0 <= j < r.value ==> w.layers[j].OtherLayer? && w.layers[j].canUnwrap
    ensures r.None? ==> forall j :: 0 <= j < Reachable(w.layers) ==> w.layers[j].OtherLayer?
  {
    FindLayer(w.layers, IsStatusLayer)
  }
}
