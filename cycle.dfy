/** Positions in an ordered list of names and the wrap-around steps used to cycle
    through scenes, scene collections and binding sets. */
module Cycle {

  /** The first position of `x` in `s`, or -1. */
  function IndexOf(s: seq<string>, x: string): (r: int)
    ensures -1 <= r < |s|
    ensures r == -1 <==> x !in s
    ensures r >= 0 ==> s[r] == x && x !in s[..r]
  {
    if s == [] then -1
    else if s[0] == x then 0
    else
      var i := IndexOf(s[1..], x);
      assert s[1..][..if i < 0 then 0 else i] == s[1..if i < 0 then 1 else i + 1];
      if i < 0 then -1 else i + 1
  }

  /** The scanning loop of getSceneIndex, getSceneCollectionIndex and getBindingsPos. */
  method Find(s: seq<string>, x: string) returns (index: int)
    ensures index == IndexOf(s, x)
  {
    index := 0;
    while index < |s|
      invariant 0 <= index <= |s|
      invariant x !in s[..index]
    {
      if s[index] == x {
        return;
      }
      index := index + 1;
    }
    assert s[..index] == s;
    index := -1;
  }

  /** One step forward from position `i`, wrapping past the end to 0. */
  function NextIndex(i: int, n: nat): (r: int)
    requires -1 <= i < n && n > 0
    ensures 0 <= r < n
    ensures i + 1 < n ==> r == i + 1
    ensures i + 1 == n ==> r == 0
  {
    if i + 1 >= n then 0 else i + 1
  }

  /** One step back from position `i`, wrapping below 0 to the last position. */
  function PrevIndex(i: int, n: nat): (r: int)
    requires -1 <= i < n && n > 0
    ensures 0 <= r < n
    ensures i >= 1 ==> r == i - 1
    ensures i <= 0 ==> r == n - 1
  {
    if i - 1 < 0 then n - 1 else i - 1
  }

  lemma StepsAreInverse(i: int, n: nat)
    requires 0 <= i < n
    ensures PrevIndex(NextIndex(i, n), n) == i
    ensures NextIndex(PrevIndex(i, n), n) == i
  {
  }

  predicate Distinct(s: seq<string>) {
    forall i, j :: 0 <= i < j < |s| ==> s[i] != s[j]
  }

  /** In a list without repetitions every element is found at its own position. */
  lemma IndexOfDistinct(s: seq<string>, i: int)
    requires Distinct(s) && 0 <= i < |s|
    ensures IndexOf(s, s[i]) == i
  {
    var k := IndexOf(s, s[i]);
    assert s[k] == s[i];
  }

  /** The element after `x` in cyclic order (the first element when `x` is not listed). */
  function Next(s: seq<string>, x: string): (r: string)
    requires |s| > 0
    ensures r in s
  {
    s[NextIndex(IndexOf(s, x), |s|)]
  }

  /** The element before `x` in cyclic order (the last element when `x` is not listed). */
  function Prev(s: seq<string>, x: string): (r: string)
    requires |s| > 0
    ensures r in s
  {
    s[PrevIndex(IndexOf(s, x), |s|)]
  }

  /** Stepping forward and then back returns to a listed element, when no name repeats. */
  lemma PrevOfNext(s: seq<string>, x: string)
    requires Distinct(s) && x in s
    ensures Prev(s, Next(s, x)) == x
    ensures Next(s, Prev(s, x)) == x
  {
    var i := IndexOf(s, x);
    IndexOfDistinct(s, NextIndex(i, |s|));
    IndexOfDistinct(s, PrevIndex(i, |s|));
    StepsAreInverse(i, |s|);
  }

  /** An unlisted element steps to the first element forward and to the last one back. */
  lemma UnlistedSteps(s: seq<string>, x: string)
    requires |s| > 0 && x !in s
    ensures Next(s, x) == s[0]
    ensures Prev(s, x) == s[|s| - 1]
  {
  }

  /** With a single element both steps stay where they are. */
  lemma SingleElementSteps(s: seq<string>, x: string)
    requires s == [x]
    ensures Next(s, x) == x && Prev(s, x) == x
  {
  }
}
