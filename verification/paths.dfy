/** Go's `path.Ext`: the extension of a slash-separated path. */
module Paths {

  /** Scans `p[..i]` from the right, as `path.Ext`'s loop does: stops with no
      extension at a `/`, and returns the suffix from the first `.` it meets. */
  function ExtScan(p: string, i: nat): (r: string)
    requires i <= |p|
    ensures r != [] ==> |r| <= |p| && r == p[|p| - |r|..] && |p| - |r| < i && r[0] == '.'
    ensures r != [] ==> forall k :: |p| - |r| < k < i ==> p[k] != '.' && p[k] != '/'
    ensures r == [] ==> forall j :: 0 <= j < i && p[j] == '.' ==> '/' in p[j + 1..i]
    decreases i
  {
    if i == 0 || p[i - 1] == '/' then []
    else if p[i - 1] == '.' then p[i - 1..]
    else
      var r := ExtScan(p, i - 1);
      assert r == [] ==> forall j :: 0 <= j < i - 1 && p[j] == '.' ==> p[j + 1..i - 1] <= p[j + 1..i];
      r
  }

  /** The suffix of `p` that starts at the last `.` of its last `/`-separated
      element, or the empty string when that element has no `.`. */
  function Ext(p: string): (r: string)
    ensures r != [] ==> |r| <= |p| && r == p[|p| - |r|..] && r[0] == '.'
    ensures forall k :: 0 < k < |r| ==> r[k] != '.' && r[k] != '/'
    ensures r == [] <==> forall j :: 0 <= j < |p| && p[j] == '.' ==> '/' in p[j + 1..]
  {
    ExtScan(p, |p|)
  }
}
