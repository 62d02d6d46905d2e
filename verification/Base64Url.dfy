// The base64url encoder of the account service (server/account/AccountService.cpp) and the
// separately written decoder (server/common/Helper.cpp); section 5 of RFC 4648.  Text is a
// sequence of bytes.
module Base64Url {
  import opened Wrappers
  import opened Bytes

  const PLUS: Byte := 0x2B
  const SLASH: Byte := 0x2F
  const MINUS: Byte := 0x2D
  const UNDERSCORE: Byte := 0x5F
  const EQUALS: Byte := 0x3D
  const DOT: Byte := 0x2E

  // ---- tables ---------------------------------------------------------------------------

  /** kTable of the encoder: A-Z, a-z, 0-9, plus, slash. */
  function TableChar(v: Byte): Byte
    requires v < 64
  {
    if v < 26 then 0x41 + v else if v < 52 then 0x61 + (v - 26) else if v < 62 then 0x30 + (v - 52)
    else if v == 62 then PLUS else SLASH
  }

  /** kDecodeTable of the decoder: None for -1.  The table lists 128 values; the other half of
      its 256 entries is zero. */
  function TableValue(c: Byte): Option<Byte> {
    if c >= 0x80 then Some(0)
    else if 0x41 <= c <= 0x5A then Some(c - 0x41)
    else if 0x61 <= c <= 0x7A then Some(c - 0x61 + 26)
    else if 0x30 <= c <= 0x39 then Some(c - 0x30 + 52)
    else if c == PLUS then Some(62)
    else if c == SLASH then Some(63)
    else None
  }

  function ToUrl(c: Byte): Byte { if c == PLUS then MINUS else if c == SLASH then UNDERSCORE else c }

  function FromUrl(c: Byte): Byte { if c == MINUS then PLUS else if c == UNDERSCORE then SLASH else c }

  lemma TablesAgree(v: Byte)
    requires v < 64
    ensures FromUrl(ToUrl(TableChar(v))) == TableChar(v)
    ensures TableValue(TableChar(v)) == Some(v)
    ensures ToUrl(TableChar(v)) != EQUALS && ToUrl(TableChar(v)) != DOT && TableChar(v) != EQUALS
  {
  }

  // ---- what encoding means ----------------------------------------------------------------

  function Six0(a: Byte): (v: Byte)
    ensures v < 64
  {
    a >> 2
  }

  function Six1(a: Byte, b: Byte): (v: Byte)
    ensures v < 64
  {
    ((a & 3) << 4) | (b >> 4)
  }

  function Six2(b: Byte, c: Byte): (v: Byte)
    ensures v < 64
  {
    ((b & 0xF) << 2) | (c >> 6)
  }

  function Six3(c: Byte): (v: Byte)
    ensures v < 64
  {
    c & 0x3F
  }

  function UrlChar(v: Byte): Byte
    requires v < 64
  {
    ToUrl(TableChar(v))
  }

  /** Three bytes at a time into four characters; one or two left over into two or three. */
  function Encode(s: seq<Byte>): seq<Byte>
    decreases |s|
  {
    if s == [] then []
    else if |s| == 1 then [UrlChar(Six0(s[0])), UrlChar(Six1(s[0], 0))]
    else if |s| == 2 then [UrlChar(Six0(s[0])), UrlChar(Six1(s[0], s[1])), UrlChar(Six2(s[1], 0))]
    else [UrlChar(Six0(s[0])), UrlChar(Six1(s[0], s[1])), UrlChar(Six2(s[1], s[2])), UrlChar(Six3(s[2]))] + Encode(s[3..])
  }

  /** The encoded text never contains a dot or a padding character. */
  lemma {:induction false} EncodeIsPlain(s: seq<Byte>)
    ensures DOT !in Encode(s) && EQUALS !in Encode(s)
    decreases |s|
  {
    hide TableChar;
    if s != [] {
      PlainChars(s[0], if |s| > 1 then s[1] else 0, if |s| > 2 then s[2] else 0);
      if |s| > 2 {
        EncodeIsPlain(s[3..]);
      }
    }
  }

  lemma PlainChars(a: Byte, b: Byte, c: Byte)
    ensures forall v :: v in [Six0(a), Six1(a, b), Six2(b, c), Six3(c)] ==>
      v < 64 && UrlChar(v) != DOT && UrlChar(v) != EQUALS
  {
    hide TableChar, Six0, Six1, Six2, Six3;
    TablesAgree(Six0(a));
    TablesAgree(Six1(a, b));
    TablesAgree(Six2(b, c));
    TablesAgree(Six3(c));
  }

  // ---- the encoder ------------------------------------------------------------------------

  /** The padded text in the standard alphabet, before the two clean-up loops. */
  function Padded(s: seq<Byte>): seq<Byte>
    decreases |s|
  {
    if s == [] then []
    else
      var b, c := if |s| > 1 then s[1] else 0, if |s| > 2 then s[2] else 0;
      [TableChar(Six0(s[0])), TableChar(Six1(s[0], b)),
       if |s| > 1 then TableChar(Six2(b, c)) else EQUALS,
       if |s| > 2 then TableChar(Six3(c)) else EQUALS]
      + Padded(if |s| > 3 then s[3..] else [])
  }

  function Mapped(s: seq<Byte>, f: Byte -> Byte): seq<Byte> { seq(|s|, i requires 0 <= i < |s| => f(s[i])) }

  function Trimmed(s: seq<Byte>): seq<Byte> {
    if s != [] && s[|s| - 1] == EQUALS then Trimmed(s[..|s| - 1]) else s
  }

  lemma {:induction false} TrimAfter(head: seq<Byte>, tail: seq<Byte>)
    requires Trimmed(tail) != []
    ensures Trimmed(head + tail) == head + Trimmed(tail)
    decreases |tail|
  {
    var all := head + tail;
    assert tail != [];
    assert all[|all| - 1] == tail[|tail| - 1];
    if tail[|tail| - 1] == EQUALS {
      assert all[..|all| - 1] == head + tail[..|tail| - 1];
      TrimAfter(head, tail[..|tail| - 1]);
    }
  }

  /** The three stages of the encoder together. */
  lemma {:induction false} StagesAreEncode(s: seq<Byte>)
    ensures Trimmed(Mapped(Padded(s), ToUrl)) == Encode(s)
    decreases |s|
  {
    hide TableChar, ToUrl, Trimmed, Six0, Six1, Six2, Six3;
    if |s| > 3 {
      StagesAreEncode(s[3..]);
      EncodeIsLonger(s[3..]);
      var four := [TableChar(Six0(s[0])), TableChar(Six1(s[0], s[1])), TableChar(Six2(s[1], s[2])), TableChar(Six3(s[2]))];
      assert Padded(s) == four + Padded(s[3..]);
      assert Mapped(Padded(s), ToUrl) == Mapped(four, ToUrl) + Mapped(Padded(s[3..]), ToUrl);
      TrimAfter(Mapped(four, ToUrl), Mapped(Padded(s[3..]), ToUrl));
    } else if s != [] {
      LastGroup(s);
    } else {
      assert Padded(s) == [] && Mapped(Padded(s), ToUrl) == [];
      TrimNothing();
    }
  }

  lemma TrimNothing()
    ensures Trimmed([]) == []
  {
  }

  lemma EncodeIsLonger(s: seq<Byte>)
    requires s != []
    ensures Encode(s) != []
  {
  }

  lemma LastGroup(s: seq<Byte>)
    requires 0 < |s| <= 3
    ensures Trimmed(Mapped(Padded(s), ToUrl)) == Encode(s)
  {
    hide TableChar, Six0, Six1, Six2, Six3, Trimmed, ToUrl;
    PaddedIsEncode(s);
    TrimPads(Encode(s));
    assert Encode(s) + [] == Encode(s);
  }

  /** The one group of a short text, after the alphabet is changed. */
  function LastFour(s: seq<Byte>): seq<Byte>
    requires 0 < |s| <= 3
  {
    var b, c := if |s| > 1 then s[1] else 0, if |s| > 2 then s[2] else 0;
    [UrlChar(Six0(s[0])), UrlChar(Six1(s[0], b)), if |s| > 1 then UrlChar(Six2(b, c)) else EQUALS,
     if |s| > 2 then UrlChar(Six3(c)) else EQUALS]
  }

  lemma PaddedIsLastFour(s: seq<Byte>)
    requires 0 < |s| <= 3
    ensures Mapped(Padded(s), ToUrl) == LastFour(s)
  {
    hide TableChar, ToUrl, Mapped, Six0, Six1, Six2, Six3;
    PaddingStays();
    var b, c := if |s| > 1 then s[1] else 0, if |s| > 2 then s[2] else 0;
    var x, y := TableChar(Six0(s[0])), TableChar(Six1(s[0], b));
    var z, w := if |s| > 1 then TableChar(Six2(b, c)) else EQUALS, if |s| > 2 then TableChar(Six3(c)) else EQUALS;
    assert Padded([]) == [];
    assert Padded(s) == [x, y, z, w] + [] == [x, y, z, w];
    MappedFour(x, y, z, w, ToUrl);
  }

  lemma PaddingStays()
    ensures ToUrl(EQUALS) == EQUALS
  {
  }

  lemma MappedFour(x: Byte, y: Byte, z: Byte, w: Byte, f: Byte -> Byte)
    ensures Mapped([x, y, z, w], f) == [f(x), f(y), f(z), f(w)]
  {
  }

  lemma PaddedIsEncode(s: seq<Byte>)
    requires 0 < |s| <= 3
    ensures Mapped(Padded(s), ToUrl) ==
      Encode(s) + (if |s| == 1 then [EQUALS, EQUALS] else if |s| == 2 then [EQUALS] else [])
    ensures Encode(s) != [] && Encode(s)[|Encode(s)| - 1] != EQUALS
  {
    hide TableChar, ToUrl, Padded, Mapped, UrlChar, Six0, Six1, Six2, Six3;
    PaddedIsLastFour(s);
    PlainChars(s[0], if |s| > 1 then s[1] else 0, if |s| > 2 then s[2] else 0);
    var m := LastFour(s);
    if |s| == 3 {
      assert s[3..] == [] && Encode([]) == [];
      assert Encode(s) == m + [] == m;
    } else if |s| == 2 {
      assert m == Encode(s) + [EQUALS];
    } else {
      assert m == Encode(s) + [EQUALS, EQUALS];
    }
  }

  lemma TrimPads(head: seq<Byte>)
    requires head != [] && head[|head| - 1] != EQUALS
    ensures Trimmed(head) == head && Trimmed(head + [EQUALS]) == head && Trimmed(head + [EQUALS, EQUALS]) == head
  {
    var one, two := head + [EQUALS], head + [EQUALS, EQUALS];
    assert one[..|one| - 1] == head;
    assert two[..|two| - 1] == one;
  }

  method Base64UrlEncode(input: seq<Byte>) returns (out: seq<Byte>)
    ensures out == Encode(input)
  {
    hide TableChar, Six0, Six1, Six2, Six3, Encode;
    out := [];
    var i := 0;
    assert input[0..] == input;
    while i < |input|
      invariant 0 <= i
      invariant out + Padded(if i < |input| then input[i..] else []) == Padded(input)
      decreases |input| - i
    {
      var a := input[i];
      var b := if i + 1 < |input| then input[i + 1] else 0;
      var c := if i + 2 < |input| then input[i + 2] else 0;
      PaddedStep(input, i, out);
      out := out + [TableChar(Six0(a))];
      out := out + [TableChar(Six1(a, b))];
      out := out + [if i + 1 < |input| then TableChar(Six2(b, c)) else EQUALS];
      out := out + [if i + 2 < |input| then TableChar(Six3(c)) else EQUALS];
      i := i + 3;
    }
    assert out == Padded(input);
    var j := 0;
    while j < |out|
      invariant 0 <= j <= |out| == |Padded(input)|
      invariant forall k :: 0 <= k < |out| ==> out[k] == if k < j then ToUrl(Padded(input)[k]) else Padded(input)[k]
    {
      if out[j] == PLUS {
        out := out[j := MINUS];
      } else if out[j] == SLASH {
        out := out[j := UNDERSCORE];
      }
      j := j + 1;
    }
    assert out == Mapped(Padded(input), ToUrl);
    while out != [] && out[|out| - 1] == EQUALS
      invariant Trimmed(out) == Trimmed(Mapped(Padded(input), ToUrl))
      decreases |out|
    {
      out := out[..|out| - 1];
    }
    StagesAreEncode(input);
  }

  lemma PaddedStep(s: seq<Byte>, i: nat, out: seq<Byte>)
    requires i < |s|
    ensures var b, c := if i + 1 < |s| then s[i + 1] else 0, if i + 2 < |s| then s[i + 2] else 0;
      out + Padded(s[i..]) ==
        out + [TableChar(Six0(s[i]))] + [TableChar(Six1(s[i], b))]
        + [if i + 1 < |s| then TableChar(Six2(b, c)) else EQUALS]
        + [if i + 2 < |s| then TableChar(Six3(c)) else EQUALS]
        + Padded(if i + 3 < |s| then s[i + 3..] else [])
  {
    hide TableChar, Six0, Six1, Six2, Six3;
    var r := s[i..];
    assert |r| > 3 ==> r[3..] == s[i + 3..];
  }

  // ---- the decoder ------------------------------------------------------------------------

  /** The bytes of one group of four; a and b are the values of its first two characters.  A
      character outside the alphabet counts as -1, all bits set. */
  function Group(a: Byte, b: Byte, c: Byte, d: Byte): seq<Byte> {
    var cv := if TableValue(c).Some? then TableValue(c).value else 0xFF;
    var second := if TableValue(c).None? then 0xFF else ((b & 0xF) << 4) | (cv >> 2);
    var third := if TableValue(d).None? then 0xFF else ((cv & 3) << 6) | TableValue(d).value;
    [(a << 2) | (b >> 4)] + (if c != EQUALS then [second] else []) + (if d != EQUALS then [third] else [])
  }

  function DecodeGroups(q: seq<Byte>): seq<Byte>
    decreases |q|
  {
    if |q| < 4 then []
    else if TableValue(q[0]).None? || TableValue(q[1]).None? then []
    else Group(TableValue(q[0]).value, TableValue(q[1]).value, q[2], q[3]) + DecodeGroups(q[4..])
  }

  function PadTo4(s: seq<Byte>): seq<Byte>
    decreases (4 - |s| % 4) % 4
  {
    if |s| % 4 == 0 then s else PadTo4(s + [EQUALS])
  }

  function Decode(s: seq<Byte>): seq<Byte> { DecodeGroups(PadTo4(Mapped(s, FromUrl))) }

  method Base64Decode(input: seq<Byte>) returns (out: seq<Byte>)
    ensures out == Decode(input)
  {
    hide TableValue, Group, DecodeGroups, PadTo4, Mapped;
    var b64 := Standard(input);
    b64 := AddEquals(b64);
    out := [];
    var i := 0;
    assert b64[0..] == b64 && [] + DecodeGroups(b64) == DecodeGroups(b64);
    while i + 3 < |b64|
      invariant 0 <= i <= |b64|
      invariant out + DecodeGroups(b64[i..]) == DecodeGroups(b64)
      decreases |b64| - i
    {
      GroupStep(b64, i, out);
      var a, b := TableValue(b64[i]), TableValue(b64[i + 1]);
      if a.None? || b.None? {
        return;
      }
      out := out + Group(a.value, b.value, b64[i + 2], b64[i + 3]);
      i := i + 4;
    }
    GroupsEnd(b64[i..], out);
  }

  lemma GroupStep(q: seq<Byte>, i: nat, out: seq<Byte>)
    requires i + 3 < |q|
    ensures out + DecodeGroups(q[i..]) ==
      if TableValue(q[i]).None? || TableValue(q[i + 1]).None? then out
      else out + Group(TableValue(q[i]).value, TableValue(q[i + 1]).value, q[i + 2], q[i + 3]) + DecodeGroups(q[i + 4..])
  {
    hide TableValue, Group;
    assert q[i..][4..] == q[i + 4..];
  }

  lemma GroupsEnd(q: seq<Byte>, out: seq<Byte>)
    requires |q| < 4
    ensures out + DecodeGroups(q) == out
  {
  }

  /** Missing padding is added. */
  method AddEquals(text: seq<Byte>) returns (b64: seq<Byte>)
    ensures b64 == PadTo4(text)
  {
    b64 := text;
    while |b64| % 4 != 0
      invariant PadTo4(b64) == PadTo4(text)
      decreases (4 - |b64| % 4) % 4
    {
      b64 := b64 + [EQUALS];
    }
  }

  /** The two replace calls. */
  method Standard(input: seq<Byte>) returns (b64: seq<Byte>)
    ensures b64 == Mapped(input, FromUrl)
  {
    b64 := input;
    var j := 0;
    while j < |b64|
      invariant 0 <= j <= |b64| == |input|
      invariant forall k :: 0 <= k < |b64| ==> b64[k] == if k < j then FromUrl(input[k]) else input[k]
    {
      if b64[j] == MINUS {
        b64 := b64[j := PLUS];
      } else if b64[j] == UNDERSCORE {
        b64 := b64[j := SLASH];
      }
      j := j + 1;
    }
    assert b64 == Mapped(input, FromUrl);
  }

  // ---- round trip -------------------------------------------------------------------------

  lemma BitsBack(a: Byte, b: Byte, c: Byte)
    ensures (Six0(a) << 2) | (Six1(a, b) >> 4) == a
    ensures ((Six1(a, b) & 0xF) << 4) | (Six2(b, c) >> 2) == b
    ensures ((Six2(b, c) & 3) << 6) | Six3(c) == c
  {
  }

  /** The decoder's view of a character the encoder wrote. */
  function StdChar(v: Byte): Byte
    requires v < 64
  {
    FromUrl(UrlChar(v))
  }

  lemma StdCharReads(v: Byte)
    requires v < 64
    ensures TableValue(StdChar(v)) == Some(v) && StdChar(v) != EQUALS
  {
    hide TableChar, TableValue;
    TablesAgree(v);
  }

  lemma GroupReads(a: Byte, b: Byte, c: Byte, d: Byte, cv: Byte, dv: Byte)
    ensures TableValue(c) == Some(cv) && c != EQUALS && TableValue(d) == Some(dv) && d != EQUALS ==>
      Group(a, b, c, d) == [(a << 2) | (b >> 4), ((b & 0xF) << 4) | (cv >> 2), ((cv & 3) << 6) | dv]
    ensures TableValue(c) == Some(cv) && c != EQUALS ==>
      Group(a, b, c, EQUALS) == [(a << 2) | (b >> 4), ((b & 0xF) << 4) | (cv >> 2)]
    ensures Group(a, b, EQUALS, EQUALS) == [(a << 2) | (b >> 4)]
  {
    hide TableValue;
  }

  lemma FullGroup(a: Byte, b: Byte, c: Byte)
    ensures Group(Six0(a), Six1(a, b), StdChar(Six2(b, c)), StdChar(Six3(c))) == [a, b, c]
  {
    hide TableValue, StdChar, Group, Six0, Six1, Six2, Six3;
    StdCharReads(Six2(b, c));
    StdCharReads(Six3(c));
    BitsBack(a, b, c);
    GroupReads(Six0(a), Six1(a, b), StdChar(Six2(b, c)), StdChar(Six3(c)), Six2(b, c), Six3(c));
  }

  lemma GroupOfTwo(a: Byte, b: Byte)
    ensures Group(Six0(a), Six1(a, b), StdChar(Six2(b, 0)), EQUALS) == [a, b]
  {
    hide TableValue, StdChar, Group, Six0, Six1, Six2, Six3;
    StdCharReads(Six2(b, 0));
    BitsBack(a, b, 0);
    GroupReads(Six0(a), Six1(a, b), StdChar(Six2(b, 0)), EQUALS, Six2(b, 0), 0);
  }

  lemma GroupOfOne(a: Byte)
    ensures Group(Six0(a), Six1(a, 0), EQUALS, EQUALS) == [a]
  {
    hide TableValue, StdChar, Group, Six0, Six1, Six2, Six3;
    BitsBack(a, 0, 0);
    GroupReads(Six0(a), Six1(a, 0), EQUALS, EQUALS, 0, 0);
  }

  /** What the decoder's first two stages make of an encoded text. */
  function Stuffed(s: seq<Byte>): seq<Byte>
    decreases |s|
  {
    if s == [] then []
    else if |s| == 1 then [StdChar(Six0(s[0])), StdChar(Six1(s[0], 0)), EQUALS, EQUALS]
    else if |s| == 2 then [StdChar(Six0(s[0])), StdChar(Six1(s[0], s[1])), StdChar(Six2(s[1], 0)), EQUALS]
    else [StdChar(Six0(s[0])), StdChar(Six1(s[0], s[1])), StdChar(Six2(s[1], s[2])), StdChar(Six3(s[2]))] + Stuffed(s[3..])
  }

  lemma {:induction false} PadAfterFour(four: seq<Byte>, s: seq<Byte>)
    requires |four| == 4
    ensures PadTo4(four + s) == four + PadTo4(s)
    decreases (4 - |s| % 4) % 4
  {
    assert |four + s| % 4 == |s| % 4;
    if |s| % 4 != 0 {
      PadAfterFour(four, s + [EQUALS]);
      assert four + s + [EQUALS] == four + (s + [EQUALS]);
    }
  }

  lemma {:induction false} StuffedIs(s: seq<Byte>)
    ensures PadTo4(Mapped(Encode(s), FromUrl)) == Stuffed(s)
    decreases |s|
  {
    hide UrlChar, FromUrl, Six0, Six1, Six2, Six3;
    var m := Mapped(Encode(s), FromUrl);
    if |s| > 2 {
      StuffedIs(s[3..]);
      var four := [StdChar(Six0(s[0])), StdChar(Six1(s[0], s[1])), StdChar(Six2(s[1], s[2])), StdChar(Six3(s[2]))];
      assert m == four + Mapped(Encode(s[3..]), FromUrl);
      PadAfterFour(four, Mapped(Encode(s[3..]), FromUrl));
    } else if |s| == 2 {
      assert m == [StdChar(Six0(s[0])), StdChar(Six1(s[0], s[1])), StdChar(Six2(s[1], 0))];
      assert PadTo4(m) == m + [EQUALS];
    } else if |s| == 1 {
      assert m == [StdChar(Six0(s[0])), StdChar(Six1(s[0], 0))];
      assert PadTo4(m) == PadTo4(m + [EQUALS]) == m + [EQUALS] + [EQUALS];
    }
  }

  lemma {:induction false} StuffedDecodes(s: seq<Byte>)
    ensures DecodeGroups(Stuffed(s)) == s
    decreases |s|
  {
    hide StdChar, TableValue, Group, Six0, Six1, Six2, Six3;
    if s != [] {
      var a, b, c := s[0], if |s| > 1 then s[1] else 0, if |s| > 2 then s[2] else 0;
      StdCharReads(Six0(a));
      StdCharReads(Six1(a, b));
      FullGroup(a, b, c);
      GroupOfTwo(a, b);
      GroupOfOne(a);
      var q := Stuffed(s);
      if |s| > 2 {
        StuffedDecodes(s[3..]);
        assert q[4..] == Stuffed(s[3..]);
        assert s == [a, b, c] + s[3..];
      } else {
        assert q[4..] == [] && DecodeGroups(q[4..]) == [];
      }
    }
  }

  /** Decoding undoes encoding for every byte string. */
  lemma {:induction false} RoundTrip(s: seq<Byte>)
    ensures Decode(Encode(s)) == s
  {
    hide Stuffed, Encode, DecodeGroups;
    StuffedIs(s);
    StuffedDecodes(s);
  }

  /** The decoder reads any byte above 127 as it reads the letter A. */
  lemma HighBytesReadAsA(c: Byte)
    requires c >= 0x80
    ensures TableValue(FromUrl(c)) == TableValue(0x41)
  {
  }
}
