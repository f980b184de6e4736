/** The two string operations the router takes from Go's `strings` package:
    `ToLower` on command names and `SplitN(s, ".", 2)` on qualified names. */
module Text {
  import opened Outcomes

  function LowerChar(c: char): char {
    if 'A' <= c <= 'Z' then (c as int - 'A' as int + 'a' as int) as char else c
  }

  /** `strings.ToLower`, restricted to ASCII letters. */
  function Lower(s: string): (r: string)
    ensures |r| == |s|
    ensures forall i :: 0 <= i < |s| ==> r[i] == LowerChar(s[i])
  {
    if s == [] then [] else [LowerChar(s[0])] + Lower(s[1..])
  }

  /** No upper-case ASCII letter is left in a lower-cased name. */
  predicate IsLower(s: string) {
    forall i :: 0 <= i < |s| ==> !('A' <= s[i] <= 'Z')
  }

  lemma LowerIsLower(s: string)
    ensures IsLower(Lower(s))
  {
  }

  /** Lower-casing twice is lower-casing once, so a lower-cased name is a fixed point. */
  lemma {:induction false} LowerIdempotent(s: string)
    ensures Lower(Lower(s)) == Lower(s)
  {
    if s != [] {
      LowerIdempotent(s[1..]);
      assert Lower(s)[1..] == Lower(s[1..]);
    }
  }

  lemma {:induction false} LowerFixesLowerCase(s: string)
    requires IsLower(s)
    ensures Lower(s) == s
  {
    if s != [] {
      LowerFixesLowerCase(s[1..]);
    }
  }

  /** The two parts of `strings.SplitN(s, ".", 2)`: the text before the first dot and,
      when there is a dot, the text after it. */
  datatype Split = Split(head: string, tail: Option<string>)

  function SplitAtDot(s: string): (r: Split)
    ensures r.tail.None? <==> '.' !in s
    ensures r.tail.None? ==> r.head == s
    ensures r.tail.Some? ==> s == r.head + "." + r.tail.value
    ensures '.' !in r.head
  {
    if s == [] then Split("", None)
    else if s[0] == '.' then Split("", Some(s[1..]))
    else
      var rest := SplitAtDot(s[1..]);
      Split([s[0]] + rest.head, rest.tail)
  }

  /** Splitting a joined "head.tail" gives back its parts whenever the head has no dot. */
  lemma {:induction false} SplitAtDotOfJoin(head: string, tail: string)
    requires '.' !in head
    ensures SplitAtDot(head + "." + tail) == Split(head, Some(tail))
  {
    var s := head + "." + tail;
    if head == [] {
      assert s[0] == '.' && s[1..] == tail;
    } else {
      assert s[0] == head[0];
      assert s[1..] == head[1..] + "." + tail;
      SplitAtDotOfJoin(head[1..], tail);
      assert [head[0]] + head[1..] == head;
    }
  }
}
