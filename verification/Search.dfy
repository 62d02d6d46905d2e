// First occurrence of a value in a sequence.
module Search {
  /** The index of the first x, or the length when there is none. */
  function FirstOf<T(==)>(s: seq<T>, x: T): (i: nat)
    ensures i <= |s| && x !in s[..i] && (i < |s| ==> s[i] == x)
  {
    if s == [] || s[0] == x then 0
    else
      var j := FirstOf(s[1..], x);
      assert s[..j + 1] == [s[0]] + s[1..][..j];
      j + 1
  }

  lemma {:induction false} FirstOfIs<T>(s: seq<T>, x: T, i: nat)
    requires i <= |s| && x !in s[..i] && (i < |s| ==> s[i] == x)
    ensures FirstOf(s, x) == i
    decreases i
  {
    if i > 0 {
      assert s[0] == s[..i][0] && s[..i][0] in s[..i];
      assert s[1..][..i - 1] == s[..i][1..];
      assert forall c :: c in s[..i][1..] ==> c in s[..i];
      FirstOfIs(s[1..], x, i - 1);
    }
  }

  /** The first x of a text that goes on after a head without x. */
  lemma FirstAfter<T>(head: seq<T>, x: T, rest: seq<T>)
    requires x !in head
    ensures FirstOf(head, x) == |head| && FirstOf(head + [x] + rest, x) == |head|
  {
    var s := head + [x] + rest;
    assert s[..|head|] == head && head[..|head|] == head;
    FirstOfIs(s, x, |head|);
    FirstOfIs(head, x, |head|);
  }
}
