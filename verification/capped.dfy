/**
 * The bounded histories of the desktop client: append at the back, then drop from the
 * front until the capacity holds.
 */
module Capped {

  /** The newest `cap` elements of `s` (all of `s` when it is short enough). */
  function Newest<T>(s: seq<T>, cap: nat): (r: seq<T>)
    ensures |r| == if |s| <= cap then |s| else cap
    ensures r == s[|s| - |r|..]
  {
    if |s| <= cap then s else s[|s| - cap..]
  }

  /** Add one element, then remove the first one if the list grew past `cap` (the chart series). */
  function Push<T>(s: seq<T>, x: T, cap: nat): (r: seq<T>)
    requires |s| <= cap
    ensures |r| <= cap
    ensures r != [] ==> r[|r| - 1] == x
    ensures r == Newest(s + [x], cap)
  {
    if |s + [x]| > cap then (s + [x])[1..] else s + [x]
  }

  // ----- properties -----

  /** Pushing one element at a time keeps the same window as taking the newest of everything. */
  lemma {:induction false} PushAll<T>(s: seq<T>, xs: seq<T>, cap: nat)
    requires |s| <= cap
    ensures PushEach(s, xs, cap) == Newest(s + xs, cap)
    decreases |xs|
  {
    if xs != [] {
      var s1 := Push(s, xs[0], cap);
      calc {
        PushEach(s, xs, cap);
        PushEach(s1, xs[1..], cap);
        { PushAll(s1, xs[1..], cap); }
        Newest(s1 + xs[1..], cap);
        { NewestAppend(s + [xs[0]], xs[1..], cap); }
        Newest(s + [xs[0]] + xs[1..], cap);
        { assert s + [xs[0]] + xs[1..] == s + xs; }
        Newest(s + xs, cap);
      }
    }
  }

  function PushEach<T>(s: seq<T>, xs: seq<T>, cap: nat): (r: seq<T>)
    requires |s| <= cap
    ensures |r| <= cap
    decreases |xs|
  {
    if xs == [] then s else PushEach(Push(s, xs[0], cap), xs[1..], cap)
  }

  /** Trimming to the newest before appending more does not change the newest of the whole. */
  lemma NewestAppend<T>(s: seq<T>, t: seq<T>, cap: nat)
    ensures Newest(Newest(s, cap) + t, cap) == Newest(s + t, cap)
  {
    var n := Newest(s, cap);
    var a := Newest(n + t, cap);
    var b := Newest(s + t, cap);
    assert |a| == |b|;
    forall i | 0 <= i < |a| ensures a[i] == b[i] {
      var k := |n + t| - |a| + i;
      var m := |s + t| - |b| + i;
      if k < |n| {
        assert (n + t)[k] == n[k] == s[|s| - |n| + k];
        assert m == |s| - |n| + k;
      } else {
        assert (n + t)[k] == t[k - |n|];
      }
    }
  }
}
