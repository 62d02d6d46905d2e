// Singly linked lists of shared-memory offsets, 0 being the null offset: a head and a map of
// next pointers, seen as the sequence of offsets they run through.
module Chains {
  type Off = nat

  /** From `head` the next pointers run through exactly `list` and then reach `end`. */
  ghost predicate ChainTo(nx: map<Off, Off>, head: Off, list: seq<Off>, end: Off)
    decreases |list|
  {
    if list == [] then head == end
    else head == list[0] && head in nx && ChainTo(nx, nx[head], list[1..], end)
  }

  lemma {:induction false} ChainFrame(nx: map<Off, Off>, nx': map<Off, Off>, head: Off, list: seq<Off>, end: Off)
    requires ChainTo(nx, head, list, end)
    requires forall r :: r in list && r in nx ==> r in nx' && nx'[r] == nx[r]
    ensures ChainTo(nx', head, list, end)
    decreases |list|
  {
    if list != [] {
      assert list[0] in list;
      assert forall r :: r in list[1..] ==> r in list;
      ChainFrame(nx, nx', nx[head], list[1..], end);
    }
  }

  lemma {:induction false} ChainConcat(nx: map<Off, Off>, head: Off, a: seq<Off>, mid: Off, b: seq<Off>, end: Off)
    requires ChainTo(nx, head, a, mid) && ChainTo(nx, mid, b, end)
    ensures ChainTo(nx, head, a + b, end)
    decreases |a|
  {
    if a == [] {
      assert a + b == b;
    } else {
      ChainConcat(nx, nx[head], a[1..], mid, b, end);
      assert (a + b)[1..] == a[1..] + b;
    }
  }

  lemma ChainNull(nx: map<Off, Off>, list: seq<Off>)
    requires ChainTo(nx, 0, list, 0) && 0 !in list
    ensures list == []
  {
    assert forall i :: 0 <= i < |list| ==> list[i] in list;
  }

  ghost predicate Distinct(list: seq<Off>) {
    forall i, j :: 0 <= i < j < |list| ==> list[i] != list[j]
  }

  /** Redirecting the last pointer of a chain moves its end. */
  lemma {:induction false} ChainRedirect(nx: map<Off, Off>, head: Off, list: seq<Off>, end: Off, end': Off)
    requires list != [] && Distinct(list) && ChainTo(nx, head, list, end)
    ensures ChainTo(nx[list[|list| - 1] := end'], head, list, end')
    decreases |list|
  {
    var last := list[|list| - 1];
    if |list| > 1 {
      assert list[1..][|list| - 2] == last;
      assert list[0] != last;
      ChainRedirect(nx, nx[head], list[1..], end, end');
    } else {
      assert list[1..] == [];
    }
  }

  lemma {:induction false} LastPointer(nx: map<Off, Off>, head: Off, list: seq<Off>, end: Off)
    requires list != [] && ChainTo(nx, head, list, end)
    ensures list[|list| - 1] in nx && nx[list[|list| - 1]] == end
    decreases |list|
  {
    if |list| > 1 {
      LastPointer(nx, nx[head], list[1..], end);
      assert list[1..][|list| - 2] == list[|list| - 1];
    } else {
      assert list[1..] == [];
    }
  }

  /** Cutting a chain before its i-th member. */
  lemma {:induction false} ChainSplit(nx: map<Off, Off>, head: Off, list: seq<Off>, end: Off, i: nat)
    requires i < |list| && ChainTo(nx, head, list, end)
    ensures ChainTo(nx, head, list[..i], list[i])
    ensures ChainTo(nx, list[i], list[i..], end)
    ensures list[i] in nx && ChainTo(nx, nx[list[i]], list[i + 1..], end)
    decreases i
  {
    if i > 0 {
      ChainSplit(nx, nx[head], list[1..], end, i - 1);
      assert list[..i][1..] == list[1..][..i - 1];
      assert list[i..] == list[1..][i - 1..];
      assert list[i + 1..] == list[1..][i..];
    } else {
      assert list[0..] == list;
    }
  }

  /** Every member of a chain has a next pointer. */
  lemma {:induction false} ChainMember(nx: map<Off, Off>, head: Off, list: seq<Off>, end: Off, o: Off)
    requires ChainTo(nx, head, list, end) && o in list
    ensures o in nx
    decreases |list|
  {
    if o != list[0] {
      ChainMember(nx, nx[head], list[1..], end, o);
    }
  }

  lemma ChainOne(nx: map<Off, Off>, o: Off, end: Off)
    requires o in nx && nx[o] == end
    ensures ChainTo(nx, o, [o], end)
  {
    assert [o][1..] == [];
    assert ChainTo(nx, end, [], end);
  }

  lemma DistinctJoin(a: seq<Off>, b: seq<Off>)
    requires Distinct(a) && Distinct(b) && forall x :: x in a ==> x !in b
    ensures Distinct(a + b)
  {
    assert forall i :: 0 <= i < |a| ==> a[i] in a;
    assert forall i :: 0 <= i < |b| ==> b[i] in b;
  }
}
