/** `Array.prototype.findIndex` / `find`: the first element that satisfies a
    test, which is how the calculator looks up income limits and rate brackets. */
module Lists {
  import opened Wrappers

  /** The index of the first element of `s` satisfying `p`, or `None` when no
      element does. */
  function FindFirst<T>(s: seq<T>, p: T -> bool): (r: Option<nat>)
    ensures r.Some? ==> r.value < |s| && p(s[r.value])
    ensures r.Some? ==> forall j :: 0 <= j < r.value ==> !p(s[j])
    ensures r.None? <==> forall j :: 0 <= j < |s| ==> !p(s[j])
  {
    if s == [] then None
    else if p(s[0]) then Some(0)
    else match FindFirst(s[1..], p)
      case None => None
      case Some(i) => Some(i + 1)
  }

  /** An element that satisfies the test and has no satisfying element before
      it is the one found. */
  lemma FindFirstIsUnique<T>(s: seq<T>, p: T -> bool, i: nat)
    requires i < |s| && p(s[i])
    requires forall j :: 0 <= j < i ==> !p(s[j])
    ensures FindFirst(s, p) == Some(i)
  {
  }
}
