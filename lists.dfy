/** `Array.prototype.find` and friends over sequences. */
module Lists {
  import opened Wrappers

  /** `s.findIndex(p)`, with `|s|` for "not found": the position of the FIRST element `p` accepts. */
  function FindIndex<T>(s: seq<T>, p: T -> bool): (r: nat)
    ensures r <= |s|
    ensures r < |s| ==> p(s[r])
    ensures forall j :: 0 <= j < r ==> !p(s[j])
  {
    if s == [] then 0
    else if p(s[0]) then 0
    else 1 + FindIndex(s[1..], p)
  }

  /** `s.find(p)`: the first element `p` accepts, or `None` (`undefined`). */
  function Find<T>(s: seq<T>, p: T -> bool): (r: Option<T>)
    ensures r.Some? <==> exists i :: 0 <= i < |s| && p(s[i])
    ensures r.Some? ==> r.value == s[FindIndex(s, p)] && p(r.value)
  {
    var i := FindIndex(s, p);
    if i < |s| then Some(s[i]) else None
  }
}
