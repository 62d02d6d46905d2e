// Bytes and fixed-width unsigned integers.
module Bytes {
  type Byte = bv8

  /** Little-endian, least significant byte first. */
  function Le(s: seq<Byte>): nat {
    if s == [] then 0 else (s[0] as nat) + 0x100 * Le(s[1..])
  }

  lemma LeOfTwo(s: seq<Byte>)
    requires |s| == 2
    ensures Le(s) == s[0] as nat + 0x100 * (s[1] as nat) < 0x1_0000
  {
    assert Le(s[1..]) == s[1] as nat;
  }

  lemma LeOfFour(s: seq<Byte>)
    requires |s| == 4
    ensures Le(s) == s[0] as nat + 0x100 * (s[1] as nat) + 0x1_0000 * (s[2] as nat) + 0x100_0000 * (s[3] as nat)
  {
    LeOfTwo(s[2..]);
    assert s[1..][1..] == s[2..];
    assert Le(s[1..]) == s[1] as nat + 0x100 * Le(s[2..]);
  }

  /** Big-endian, most significant byte first. */
  function Be(s: seq<Byte>): nat {
    if s == [] then 0 else 0x100 * Be(s[..|s| - 1]) + (s[|s| - 1] as nat)
  }

  lemma BeOfTwo(s: seq<Byte>)
    requires |s| == 2
    ensures Be(s) == 0x100 * (s[0] as nat) + s[1] as nat
  {
    assert s[..1][..0] == [] && Be(s[..1]) == s[0] as nat;
  }

  /** The k low-order bytes of n, most significant first. */
  function ToBe(n: nat, k: nat): (s: seq<Byte>)
    ensures |s| == k
  {
    if k == 0 then [] else ToBe(n / 0x100, k - 1) + [ByteOf(n % 0x100)]
  }

  /** The byte with value n, counted up from zero. */
  function ByteOf(n: nat): Byte
    requires n < 0x100
  {
    if n == 0 then 0 else ByteOf(n - 1) + 1
  }

  lemma {:induction false} ByteOfIs(n: nat)
    requires n < 0x100
    ensures ByteOf(n) as nat == n
  {
    if n > 0 {
      ByteOfIs(n - 1);
      NextByte(ByteOf(n - 1));
    }
  }

  lemma NextByte(b: Byte)
    ensures b as nat < 0xFF ==> (b + 1) as nat == b as nat + 1
  {
  }

  function Pow256(k: nat): (p: nat)
    ensures p > 0
  {
    if k == 0 then 1 else 0x100 * Pow256(k - 1)
  }

  /** Writing k bytes and reading them back gives the number again, when it fits. */
  lemma {:induction false} BeToBe(n: nat, k: nat)
    requires n < Pow256(k)
    ensures Be(ToBe(n, k)) == n
    decreases k
  {
    if k > 0 {
      BeToBe(n / 0x100, k - 1);
      ByteOfIs(n % 0x100);
      var s := ToBe(n, k);
      assert s[..k - 1] == ToBe(n / 0x100, k - 1);
    }
  }

  /** Slices of a stream that starts with `head` do not depend on what follows. */
  lemma TakeOfConcat(head: seq<Byte>, more: seq<Byte>, lo: nat, hi: nat)
    requires lo <= hi <= |head|
    ensures (head + more)[lo..hi] == head[lo..hi]
  {
  }

  lemma DropOfConcat(head: seq<Byte>, more: seq<Byte>, n: nat)
    requires n <= |head|
    ensures (head + more)[n..] == head[n..] + more
  {
  }
}
