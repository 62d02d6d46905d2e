// The byte ring buffer (server/core/shm/shm_ringbuffer.h and .cpp): a bounded double-ended
// sequence kept in an array with wrap-around, one cell always left free.
module Ring {
  import opened Bytes
  import opened Modular

  /** The bytes from head up to tail, going around the end of the array. */
  function Window(b: seq<Byte>, head: nat, tail: nat): seq<Byte>
    requires head < |b| && tail < |b|
  {
    if head <= tail then b[head..tail] else b[head..] + b[..tail]
  }

  function UsedOf(n: nat, head: nat, tail: nat): nat
    requires head < n && tail < n
  {
    if tail >= head then tail - head else n - (head - tail)
  }

  function AvailableOf(n: nat, head: nat, tail: nat): nat
    requires head < n && tail < n
  {
    if tail >= head then n - (tail - head) - 1 else head - tail - 1
  }

  /** The byte j cells after position `at`, going around. */
  function Cell(b: seq<Byte>, at: nat, j: nat): Byte {
    if at + j < |b| then b[at + j] else if at + j < 2 * |b| then b[at + j - |b|] else 0
  }

  /** The i-th byte of the window sits i cells after head. */
  lemma WindowAt(b: seq<Byte>, head: nat, tail: nat)
    requires head < |b| && tail < |b|
    ensures |Window(b, head, tail)| == UsedOf(|b|, head, tail) < |b|
    ensures forall i :: 0 <= i < |Window(b, head, tail)| ==> Window(b, head, tail)[i] == Cell(b, head, i)
  {
  }

  /** Used and Available split the capacity, ring_size - 1. */
  lemma Capacity(b: seq<Byte>, head: nat, tail: nat)
    requires head < |b| && tail < |b|
    ensures |Window(b, head, tail)| + AvailableOf(|b|, head, tail) == |b| - 1
    ensures Window(b, head, tail) == [] <==> head == tail
    ensures |Window(b, head, tail)| == |b| - 1 <==> (tail + 1) % |b| == head
  {
    WindowAt(b, head, tail);
    hide Window;
    WrapIsMod(tail + 1, |b|);
    assert |Window(b, head, tail)| == 0 <==> head == tail;
  }

  function Wrap(x: nat, n: nat): nat
    requires 0 < n
  {
    if x < n then x else x - n
  }

  lemma WrapIsMod(x: nat, n: nat)
    requires 0 < n && x < 2 * n
    ensures x % n == Wrap(x, n) < n
  {
    DivModIs(x, n, if x < n then 0 else 1, Wrap(x, n));
  }

  ghost predicate Holds(b: seq<Byte>, at: nat, items: seq<Byte>) {
    forall i :: 0 <= i < |items| ==> Cell(b, at, i) == items[i]
  }

  /** Cells after tail filled with `items`. */
  lemma Pushed(b: seq<Byte>, b': seq<Byte>, head: nat, tail: nat, tail': nat, items: seq<Byte>)
    requires head < |b| && tail < |b| && |b'| == |b| && |items| <= AvailableOf(|b|, head, tail)
    requires tail' == Wrap(tail + |items|, |b|)
    requires Holds(b', tail, items) && Holds(b', head, Window(b, head, tail))
    ensures Window(b', head, tail') == Window(b, head, tail) + items
  {
    WindowAt(b, head, tail);
    WindowAt(b', head, tail');
    hide Window;
    var u := UsedOf(|b|, head, tail);
    var w := Window(b', head, tail');
    assert |w| == u + |items|;
    forall k | u <= k < |w| ensures w[k] == items[k - u] {
      assert Cell(b', head, k) == Cell(b', tail, k - u);
    }
  }

  /** Cells before head filled with `items`. */
  lemma PushedFront(b: seq<Byte>, b': seq<Byte>, head: nat, tail: nat, head': nat, items: seq<Byte>)
    requires head < |b| && tail < |b| && |b'| == |b| && |items| <= AvailableOf(|b|, head, tail)
    requires head' == Wrap(head + |b| - |items|, |b|)
    requires Holds(b', head', items) && Holds(b', head, Window(b, head, tail))
    ensures Window(b', head', tail) == items + Window(b, head, tail)
  {
    WindowAt(b, head, tail);
    WindowAt(b', head', tail);
    hide Window;
    var w := Window(b', head', tail);
    assert |w| == |items| + UsedOf(|b|, head, tail);
    forall k | |items| <= k < |w| ensures w[k] == Window(b, head, tail)[k - |items|] {
      assert Cell(b', head', k) == Cell(b', head, k - |items|);
    }
  }

  /** Moving head over `count` bytes. */
  lemma Dropped(b: seq<Byte>, head: nat, tail: nat, count: nat)
    requires head < |b| && tail < |b| && count <= UsedOf(|b|, head, tail)
    ensures Wrap(head + count, |b|) < |b|
    ensures Window(b, Wrap(head + count, |b|), tail) == Window(b, head, tail)[count..]
  {
    WindowAt(b, head, tail);
    WindowAt(b, Wrap(head + count, |b|), tail);
  }

  class ByteRing {
    const buffer: array<Byte>
    var head: nat
    var tail: nat

    ghost predicate Valid()
      reads this
    {
      head < buffer.Length && tail < buffer.Length
    }

    ghost function Contents(): (s: seq<Byte>)
      requires Valid()
      reads this, buffer
      ensures |s| < buffer.Length
    {
      WindowAt(buffer[..], head, tail);
      Window(buffer[..], head, tail)
    }

    constructor (size: nat)
      requires size > 0
      ensures Valid() && fresh(buffer) && buffer.Length == size && Contents() == []
    {
      buffer := new Byte[size];
      head, tail := 0, 0;
    }

    method Used() returns (n: nat)
      requires Valid()
      ensures n == |Contents()|
    {
      n := if tail >= head then tail - head else buffer.Length - (head - tail);
    }

    method Available() returns (n: nat)
      requires Valid()
      ensures n == buffer.Length - 1 - |Contents()|
    {
      n := if tail >= head then buffer.Length - (tail - head) - 1 else head - tail - 1;
    }

    method IsEmpty() returns (r: bool)
      requires Valid()
      ensures r <==> Contents() == []
    {
      Capacity(buffer[..], head, tail);
      r := head == tail;
    }

    method IsFull() returns (r: bool)
      requires Valid()
      ensures r <==> |Contents()| == buffer.Length - 1
    {
      Capacity(buffer[..], head, tail);
      r := (tail + 1) % buffer.Length == head;
    }

    /** Appends all of `items` or nothing. */
    method Push(items: seq<Byte>) returns (ok: bool)
      requires Valid()
      modifies `tail, buffer
      ensures Valid()
      ensures ok <==> |old(Contents())| + |items| <= buffer.Length - 1
      ensures Contents() == if ok then old(Contents()) + items else old(Contents())
    {
      var count := |items|;
      if count == 0 {
        return true;
      }
      var room := Available();
      if room < count {
        return false;
      }
      ghost var b, t := buffer[..], tail;
      var contiguous := buffer.Length - tail;
      WrapIsMod(tail + count, buffer.Length);
      if contiguous >= count {
        forall i | 0 <= i < count {
          buffer[tail + i] := items[i];
        }
        tail := (tail + count) % buffer.Length;
      } else {
        forall i | 0 <= i < contiguous {
          buffer[tail + i] := items[i];
        }
        forall i | 0 <= i < count - contiguous {
          buffer[i] := items[contiguous + i];
        }
        tail := count - contiguous;
      }
      Pushed(b, buffer[..], head, t, tail, items);
      ok := true;
    }

    /** Reads a prefix of `count` bytes, all of them or none. */
    method Peek(count: nat) returns (ok: bool, items: seq<Byte>)
      requires Valid()
      ensures ok <==> count <= |Contents()|
      ensures ok ==> items == Contents()[..count]
    {
      if count == 0 {
        return true, [];
      }
      var used := Used();
      if used < count {
        return false, [];
      }
      var contiguous := buffer.Length - head;
      if contiguous >= count {
        items := buffer[head..head + count];
      } else {
        items := buffer[head..] + buffer[..count - contiguous];
      }
      ok := true;
    }

    /** Peek, and the bytes read leave the ring. */
    method Pop(count: nat) returns (ok: bool, items: seq<Byte>)
      requires Valid()
      modifies `head
      ensures Valid()
      ensures ok <==> count <= |old(Contents())|
      ensures ok ==> old(Contents()) == items + Contents() && |items| == count
      ensures !ok ==> Contents() == old(Contents())
    {
      if count == 0 {
        return true, [];
      }
      var used := Used();
      if used < count {
        return false, [];
      }
      Dropped(buffer[..], head, tail, count);
      WrapIsMod(head + count, buffer.Length);
      var contiguous := buffer.Length - head;
      if contiguous >= count {
        items := buffer[head..head + count];
        head := (head + count) % buffer.Length;
      } else {
        items := buffer[head..] + buffer[..count - contiguous];
        head := count - contiguous;
      }
      ok := true;
    }

    /** Puts all of `items` before the first byte, or nothing. */
    method PushFront(items: seq<Byte>) returns (ok: bool)
      requires Valid()
      modifies `head, buffer
      ensures Valid()
      ensures ok <==> |old(Contents())| + |items| <= buffer.Length - 1
      ensures Contents() == if ok then items + old(Contents()) else old(Contents())
    {
      var count := |items|;
      if count == 0 {
        return true;
      }
      var room := Available();
      if room < count {
        return false;
      }
      ghost var b, h := buffer[..], head;
      var contiguous := head;
      WrapIsMod(head - count + buffer.Length, buffer.Length);
      if contiguous >= count {
        forall i | 0 <= i < count {
          buffer[head - count + i] := items[i];
        }
        head := (head - count + buffer.Length) % buffer.Length;
      } else {
        var first := count - contiguous;
        forall i | 0 <= i < first {
          buffer[buffer.Length - first + i] := items[i];
        }
        forall i | 0 <= i < contiguous {
          buffer[i] := items[first + i];
        }
        head := buffer.Length - first;
      }
      PushedFront(b, buffer[..], h, tail, head, items);
      ok := true;
    }

    /** Discards up to `count` bytes; refused for nothing to drop. */
    method Drop(count: nat) returns (ok: bool)
      requires Valid()
      modifies `head
      ensures Valid()
      ensures ok <==> count > 0 && old(Contents()) != []
      ensures var n := if count < |old(Contents())| then count else |old(Contents())|;
        Contents() == old(Contents())[n..]
    {
      if count == 0 {
        return false;
      }
      var n := Used();
      if n == 0 {
        return false;
      }
      if count < n {
        n := count;
      }
      Dropped(buffer[..], head, tail, n);
      WrapIsMod(head + n, buffer.Length);
      head := (head + n) % buffer.Length;
      ok := true;
    }

    method PushOne(item: Byte) returns (ok: bool)
      requires Valid()
      modifies `tail, buffer
      ensures Valid()
      ensures ok <==> |old(Contents())| < buffer.Length - 1
      ensures Contents() == if ok then old(Contents()) + [item] else old(Contents())
    {
      var full := IsFull();
      if full {
        return false;
      }
      ghost var b, t := buffer[..], tail;
      WrapIsMod(tail + 1, buffer.Length);
      Capacity(b, head, tail);
      buffer[tail] := item;
      tail := (tail + 1) % buffer.Length;
      Pushed(b, buffer[..], head, t, tail, [item]);
      ok := true;
    }

    method PopOne() returns (ok: bool, item: Byte)
      requires Valid()
      modifies `head
      ensures Valid()
      ensures ok <==> old(Contents()) != []
      ensures ok ==> old(Contents()) == [item] + Contents()
      ensures !ok ==> Contents() == old(Contents())
    {
      var empty := IsEmpty();
      if empty {
        return false, 0;
      }
      Dropped(buffer[..], head, tail, 1);
      WrapIsMod(head + 1, buffer.Length);
      item := buffer[head];
      head := (head + 1) % buffer.Length;
      ok := true;
    }

    /** The unspecialised batch Push, one item at a time: where the byte batch succeeds it
        leaves the same contents. */
    method PushEach(items: seq<Byte>) returns (ok: bool)
      requires Valid()
      modifies `tail, buffer
      ensures Valid()
      ensures ok <==> |old(Contents())| + |items| <= buffer.Length - 1
      ensures ok ==> Contents() == old(Contents()) + items
      ensures !ok ==> Contents() == old(Contents()) + items[..buffer.Length - 1 - |old(Contents())|]
    {
      var i := 0;
      while i < |items|
        invariant 0 <= i <= |items| && Valid()
        invariant Contents() == old(Contents()) + items[..i]
      {
        var one := PushOne(items[i]);
        if !one {
          return false;
        }
        assert items[..i + 1] == items[..i] + [items[i]];
        i := i + 1;
      }
      assert items[..i] == items;
      ok := true;
    }

    method PopEach(count: nat) returns (ok: bool, items: seq<Byte>)
      requires Valid()
      modifies `head
      ensures Valid()
      ensures ok <==> count <= |old(Contents())|
      ensures old(Contents()) == items + Contents()
      ensures |items| == if ok then count else |old(Contents())|
    {
      items := [];
      while |items| < count
        invariant Valid() && |items| <= count
        invariant old(Contents()) == items + Contents()
      {
        ghost var got := items;
        var one, item := PopOne();
        if !one {
          return false, items;
        }
        items := items + [item];
        assert got + ([item] + Contents()) == items + Contents();
      }
      ok := true;
    }

    method Reset()
      requires buffer.Length > 0
      modifies this
      ensures Valid() && Contents() == []
    {
      head, tail := 0, 0;
    }
  }
}
