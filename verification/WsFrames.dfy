// WebSocket frames (server/core/network/WsListener.cpp): the frame builder, the incremental
// frame parser and the message layout inside a frame, against sections 5.2 and 5.3 of RFC 6455.
module WsFrames {
  import opened Wrappers
  import opened Bytes
  import opened Streams

  const HEADER_SIZE: nat := 18
  const MAX_PACKET_SIZE: nat := 1048576

  // ---- masking (section 5.3) --------------------------------------------------------

  function Masked(p: seq<Byte>, key: seq<Byte>): seq<Byte>
    requires |key| == 4
  {
    seq(|p|, i requires 0 <= i < |p| => p[i] ^ key[i % 4])
  }

  lemma XorTwice(a: Byte, k: Byte)
    ensures (a ^ k) ^ k == a
  {
  }

  /** Masking undoes itself. */
  lemma MaskTwice(p: seq<Byte>, key: seq<Byte>)
    requires |key| == 4
    ensures Masked(Masked(p, key), key) == p
  {
    forall i | 0 <= i < |p| ensures Masked(Masked(p, key), key)[i] == p[i] {
      XorTwice(p[i], key[i % 4]);
    }
  }

  // ---- frame layout (section 5.2) ---------------------------------------------------

  /** The three ways to write a payload length. */
  datatype Form = Short | Mid | Long

  predicate FitsForm(form: Form, n: nat) {
    match form
    case Short => n <= 125
    case Mid => n <= 65535
    case Long => n < Pow256(8)
  }

  function LenBits(form: Form, n: nat): Byte
    requires FitsForm(form, n)
  {
    match form
    case Short => ByteOf(n)
    case Mid => 126
    case Long => 127
  }

  function Extension(form: Form, n: nat): seq<Byte> {
    match form
    case Short => []
    case Mid => ToBe(n, 2)
    case Long => ToBe(n, 8)
  }

  function LenByte(form: Form, n: nat, masked: bool): Byte
    requires FitsForm(form, n)
  {
    if masked then 0x80 | LenBits(form, n) else LenBits(form, n)
  }

  /** A frame with first byte b0, as any peer may write it. */
  function Frame(b0: Byte, form: Form, key: Option<seq<Byte>>, payload: seq<Byte>): seq<Byte>
    requires FitsForm(form, |payload|) && (key.Some? ==> |key.value| == 4)
  {
    [b0, LenByte(form, |payload|, key.Some?)] + Extension(form, |payload|)
    + (if key.Some? then key.value + Masked(payload, key.value) else payload)
  }

  function Minimal(n: nat): Form { if n <= 125 then Short else if n <= 65535 then Mid else Long }

  // ---- parsing ----------------------------------------------------------------------

  function Len7(b1: Byte): nat { (b1 & 0x7F) as nat }

  predicate IsMasked(b1: Byte) { b1 & 0x80 != 0 }

  function ExtSize(b1: Byte): nat { if Len7(b1) == 126 then 2 else if Len7(b1) == 127 then 8 else 0 }

  function HeadSize(b1: Byte): nat { 2 + ExtSize(b1) + (if IsMasked(b1) then 4 else 0) }

  function PayloadLen(buf: seq<Byte>): nat
    requires |buf| >= 2 && |buf| >= HeadSize(buf[1])
  {
    var e := ExtSize(buf[1]);
    if e == 0 then Len7(buf[1]) else Be(buf[2..2 + e])
  }

  function Payload(buf: seq<Byte>): seq<Byte>
    requires |buf| >= 2 && |buf| >= HeadSize(buf[1]) && |buf| >= HeadSize(buf[1]) + PayloadLen(buf)
  {
    var h := HeadSize(buf[1]);
    var raw := buf[h..h + PayloadLen(buf)];
    if IsMasked(buf[1]) then Masked(raw, buf[h - 4..h]) else raw
  }

  /** A frame as the parser sees it: opcode and unmasked payload. */
  datatype Seen = More | TooBig | Whole(opcode: Byte, payload: seq<Byte>, size: nat)

  function See(buf: seq<Byte>): Seen {
    if |buf| < 2 || |buf| < HeadSize(buf[1]) then More
    else if PayloadLen(buf) > MAX_PACKET_SIZE then TooBig
    else if |buf| < HeadSize(buf[1]) + PayloadLen(buf) then More
    else Whole(buf[0] & 0x0F, Payload(buf), HeadSize(buf[1]) + PayloadLen(buf))
  }

  // ---- the message inside a data frame ----------------------------------------------

  /** The delivered message: connection id rewritten, body None for a null data pointer. */
  datatype Message = Message(conn: nat, head: seq<Byte>, msgId: seq<Byte>, dataLen: seq<Byte>, body: Option<seq<Byte>>)

  datatype Event = Got(m: Message) | Pong

  function Interpret(conn: nat, p: seq<Byte>): seq<Event> {
    if |p| < HEADER_SIZE then []
    else
      var full := |p| >= HEADER_SIZE + 4;
      var msgId := if full then p[18..20] else [0, 0];
      var dataLen := if full then p[20..22] else [0, 0];
      var at := if full then HEADER_SIZE + 4 else HEADER_SIZE;
      var n := Le(dataLen);
      [Got(Message(conn, p[..10], msgId, dataLen, if n > 0 && |p| >= at + n then Some(p[at..at + n]) else None))]
  }

  function Zeros(k: nat): (z: seq<Byte>)
    ensures |z| == k
  {
    seq(k, _ => 0)
  }

  /** The bytes send lays out for a message; a missing body leaves zeros. */
  function Layout(header: seq<Byte>, msgId: seq<Byte>, dataLen: seq<Byte>, data: Option<seq<Byte>>): seq<Byte>
    requires data.Some? ==> |data.value| == Le(dataLen)
  {
    header + msgId + dataLen + (if data.Some? then data.value else Zeros(Le(dataLen)))
  }

  /** The message laid out by send is the message delivered, apart from the rewritten
      connection id; a missing or empty body is delivered as zeros or as none. */
  lemma LayoutRoundTrip(conn: nat, header: seq<Byte>, msgId: seq<Byte>, dataLen: seq<Byte>, data: Option<seq<Byte>>)
    requires |header| == HEADER_SIZE && |msgId| == |dataLen| == 2
    requires data.Some? ==> |data.value| == Le(dataLen)
    ensures Interpret(conn, Layout(header, msgId, dataLen, data)) ==
      [Got(Message(conn, header[..10], msgId, dataLen,
                   if Le(dataLen) == 0 then None
                   else if data.Some? then data else Some(Zeros(Le(dataLen)))))]
    ensures |Layout(header, msgId, dataLen, data)| <= 22 + 65535 <= MAX_PACKET_SIZE
  {
    hide Le;
    var p := Layout(header, msgId, dataLen, data);
    var body := if data.Some? then data.value else Zeros(Le(dataLen));
    assert p == header + msgId + dataLen + body;
    assert p[..10] == header[..10] && p[18..20] == msgId && p[20..22] == dataLen;
    assert p[22..22 + Le(dataLen)] == body;
    LeOfTwo(dataLen);
  }

  // ---- the parser as a step ---------------------------------------------------------

  function Front(conn: nat, buf: seq<Byte>): Step<Event> {
    match See(buf)
    case More => Wait
    case TooBig => Stop([], 0)
    case Whole(op, p, n) =>
      if op == 8 then Stop([], n)
      else if op == 9 then Take([Pong], n)
      else if op != 2 && op != 1 then Take([], n)
      else Take(Interpret(conn, p), n)
  }

  function Frames(conn: nat): Look<Event> { (buf: seq<Byte>) => Front(conn, buf) }

  lemma SeeBounds(buf: seq<Byte>)
    ensures See(buf).Whole? ==> 2 <= See(buf).size <= |buf|
  {
  }

  lemma PayloadLenExtend(buf: seq<Byte>, more: seq<Byte>)
    requires |buf| >= 2 && |buf| >= HeadSize(buf[1])
    ensures (buf + more)[1] == buf[1] && PayloadLen(buf + more) == PayloadLen(buf)
  {
    hide Be;
    TakeOfConcat(buf, more, 2, 2 + ExtSize(buf[1]));
  }

  lemma SeeExtend(buf: seq<Byte>, more: seq<Byte>)
    ensures See(buf).More? || See(buf + more) == See(buf)
  {
    hide Masked, PayloadLen, Len7;
    if |buf| >= 2 && |buf| >= HeadSize(buf[1]) {
      PayloadLenExtend(buf, more);
      var h := HeadSize(buf[1]);
      if |buf| >= h + PayloadLen(buf) {
        TakeOfConcat(buf, more, h, h + PayloadLen(buf));
        if IsMasked(buf[1]) {
          TakeOfConcat(buf, more, h - 4, h);
        }
      }
    }
  }

  lemma FramesIncremental(conn: nat)
    ensures Bounded(Frames(conn)) && Stable(Frames(conn))
  {
    hide See, Interpret;
    forall b ensures See(b).Whole? ==> 2 <= See(b).size <= |b| {
      SeeBounds(b);
    }
    forall b, more ensures Frames(conn)(b).Wait? || Frames(conn)(b + more) == Frames(conn)(b) {
      SeeExtend(b, more);
    }
  }

  /** A sequence of frames parses the same however the buffer is filled. */
  lemma WsChunkingIndependent(conn: nat, chunks: seq<seq<Byte>>)
    requires chunks != []
    ensures var w := Parse(Frames(conn), Concat(chunks));
      var z := FeedAll(Frames(conn), Conn([], [], false), chunks);
      z.delivered == w.out && z.closed == w.closed && (!z.closed ==> z.rest == w.rest)
  {
    hide Parse, Bounded, Stable;
    FramesIncremental(conn);
    ChunkingIndependent(Frames(conn), Conn([], [], false), chunks);
    assert [] + Concat(chunks) == Concat(chunks);
  }

  // ---- frames by their bytes ---------------------------------------------------------

  /** The length field of a frame, read byte by byte: 2, 4 or 10 bytes of header before the key. */
  predicate LengthAt(buf: seq<Byte>, at: nat, n: nat) {
    && 2 <= at <= |buf|
    && ((at == 2 && n <= 125 && (buf[1] & 0x7F) as nat == n)
        || (at == 4 && (buf[1] & 0x7F) == 126 && n == 0x100 * (buf[2] as nat) + buf[3] as nat)
        || (at == 10 && (buf[1] & 0x7F) == 127 && n == Be(buf[2..10])))
  }

  /** A masked frame at the front of the buffer: the i-th byte of its payload is the i-th byte
      behind the key, exclusive-or the key's byte at i modulo 4 (section 5.3). */
  lemma MaskedByIndex(buf: seq<Byte>, at: nat, n: nat, payload: seq<Byte>)
    requires LengthAt(buf, at, n) && n <= 0x10_0000 && |buf| >= at + 4 + n && buf[1] & 0x80 != 0
    requires |payload| == n && forall i :: 0 <= i < n ==> payload[i] == buf[at + 4 + i] ^ buf[at + i % 4]
    ensures See(buf) == Whole(buf[0] & 0x0F, payload, at + 4 + n)
  {
    hide Be;
    LengthRead(buf, at, n);
    var raw, key := buf[at + 4..at + 4 + n], buf[at..at + 4];
    assert |raw| == n && forall i :: 0 <= i < n ==> raw[i] == buf[at + 4 + i] && key[i % 4] == buf[at + i % 4];
    assert Masked(raw, key) == payload;
  }

  /** An unmasked one carries its payload as it is. */
  lemma PlainByIndex(buf: seq<Byte>, at: nat, n: nat)
    requires LengthAt(buf, at, n) && buf[1] & 0x80 == 0 && n <= 0x10_0000 && |buf| >= at + n
    ensures See(buf) == Whole(buf[0] & 0x0F, buf[at..at + n], at + n)
  {
    hide Be;
    LengthRead(buf, at, n);
  }

  /** A frame that announces more than 2^20 bytes closes the connection as soon as its header is
      there, masked or not. */
  lemma OversizeCloses(conn: nat, buf: seq<Byte>, at: nat, n: nat)
    requires LengthAt(buf, at, n) && n > 0x10_0000 && (buf[1] & 0x80 != 0 ==> |buf| >= at + 4)
    ensures See(buf) == TooBig && Parse(Frames(conn), buf) == Parsed([], buf, true)
  {
    hide Be;
    LengthRead(buf, at, n);
  }

  lemma LengthRead(buf: seq<Byte>, at: nat, n: nat)
    requires LengthAt(buf, at, n) && (buf[1] & 0x80 != 0 ==> |buf| >= at + 4)
    ensures HeadSize(buf[1]) == at + (if buf[1] & 0x80 != 0 then 4 else 0) && PayloadLen(buf) == n
  {
    if at == 4 {
      BeOfTwo(buf[2..4]);
    }
  }

  lemma NothingYet(conn: nat)
    ensures Parse(Frames(conn), []) == Parsed([], [], false)
  {
  }

  /** What a data frame with such a payload delivers by itself. */
  lemma MaskedFrameDelivers(conn: nat, buf: seq<Byte>, at: nat, n: nat, payload: seq<Byte>)
    requires LengthAt(buf, at, n) && buf[1] & 0x80 != 0 && n <= 0x10_0000 && |buf| == at + 4 + n
    requires |payload| == n && forall i :: 0 <= i < n ==> payload[i] == buf[at + 4 + i] ^ buf[at + i % 4]
    requires buf[0] & 0x0F == 1 || buf[0] & 0x0F == 2
    ensures Parse(Frames(conn), buf) == Parsed(Interpret(conn, payload), [], false)
  {
    hide See, Interpret, LengthAt;
    MaskedByIndex(buf, at, n, payload);
    assert buf[at + 4 + n..] == [];
    assert Front(conn, buf) == Take(Interpret(conn, payload), at + 4 + n);
    NothingYet(conn);
    assert Interpret(conn, payload) + [] == Interpret(conn, payload);
  }

  /** Payloads too short for a whole message: nothing below 18 bytes; no ids and no body below
      22; no body when fewer bytes follow than announced, or none is announced. */
  lemma ShortPayloads(conn: nat, p: seq<Byte>)
    ensures |p| < 18 ==> Interpret(conn, p) == []
    ensures 18 <= |p| < 22 ==> Interpret(conn, p) == [Got(Message(conn, p[..10], [0, 0], [0, 0], None))]
    ensures |p| >= 22 && (Le(p[20..22]) == 0 || |p| < 22 + Le(p[20..22])) ==>
      Interpret(conn, p) == [Got(Message(conn, p[..10], p[18..20], p[20..22], None))]
    ensures |p| >= 22 && 0 < Le(p[20..22]) <= |p| - 22 ==>
      Interpret(conn, p) == [Got(Message(conn, p[..10], p[18..20], p[20..22], Some(p[22..22 + Le(p[20..22])])))]
  {
    assert [0 as Byte, 0][1..] == [0] && Le([0]) == 0 && Le([0, 0]) == 0;
  }

  // ---- round trip of frames ---------------------------------------------------------

  lemma LenByteReads(form: Form, n: nat, masked: bool)
    requires FitsForm(form, n)
    ensures Len7(LenByte(form, n, masked)) == (match form case Short => n case Mid => 126 case Long => 127)
    ensures IsMasked(LenByte(form, n, masked)) <==> masked
  {
    hide ByteOf;
    if form.Short? {
      ByteOfIs(n);
    }
    var b := LenBits(form, n);
    LowByte(b);
    assert b <= 127;
    assert b & 0x7F == b && (0x80 | b) & 0x7F == b && b & 0x80 == 0 && (0x80 | b) & 0x80 == 0x80;
  }

  lemma LowByte(b: Byte)
    ensures b as nat <= 127 <==> b <= 127
  {
  }

  /** The header of a frame is read back. */
  lemma HeadReads(b0: Byte, form: Form, key: Option<seq<Byte>>, payload: seq<Byte>, more: seq<Byte>)
    requires FitsForm(form, |payload|) && (key.Some? ==> |key.value| == 4)
    ensures var buf := Frame(b0, form, key, payload) + more;
      && HeadSize(buf[1]) == 2 + |Extension(form, |payload|)| + (if key.Some? then 4 else 0) <= |buf|
      && (IsMasked(buf[1]) <==> key.Some?)
      && PayloadLen(buf) == |payload|
  {
    hide Be, ToBe, Masked, LenByte, Len7, IsMasked;
    var n := |payload|;
    LenByteReads(form, n, key.Some?);
    var buf := Frame(b0, form, key, payload) + more;
    var ext := Extension(form, n);
    assert buf[1] == LenByte(form, n, key.Some?);
    assert buf[2..2 + |ext|] == ext;
    match form
    case Short =>
    case Mid => assert Pow256(2) == 65536; BeToBe(n, 2);
    case Long => BeToBe(n, 8);
  }

  /** Every frame with a payload of at most MAX_PACKET_SIZE bytes, in any length form, masked
      with any key or not, is recovered, and exactly its bytes are consumed; a longer payload
      closes the connection. */
  lemma FrameRoundTrip(b0: Byte, form: Form, key: Option<seq<Byte>>, payload: seq<Byte>, more: seq<Byte>)
    requires FitsForm(form, |payload|) && (key.Some? ==> |key.value| == 4)
    ensures See(Frame(b0, form, key, payload) + more) ==
      if |payload| <= MAX_PACKET_SIZE then Whole(b0 & 0x0F, payload, |Frame(b0, form, key, payload)|) else TooBig
  {
    hide Be, ToBe, Masked, PayloadLen, Len7, IsMasked, ExtSize, HeadSize;
    HeadReads(b0, form, key, payload, more);
    var buf := Frame(b0, form, key, payload) + more;
    var ext := Extension(form, |payload|);
    var h := HeadSize(buf[1]);
    if key.Some? {
      var m := Masked(payload, key.value);
      MaskedLength(payload, key.value);
      assert buf == [b0, LenByte(form, |payload|, true)] + ext + key.value + m + more;
      assert buf[h - 4..h] == key.value;
      assert buf[h..h + |payload|] == m;
      MaskTwice(payload, key.value);
    } else {
      assert buf[h..h + |payload|] == payload;
    }
    assert buf[0] == b0;
  }

  lemma MaskedLength(p: seq<Byte>, key: seq<Byte>)
    requires |key| == 4
    ensures |Masked(p, key)| == |p|
  {
  }

  /** What a data frame built around a laid-out message delivers, whatever follows it: the
      message, with its body, with none if it is empty, with zeros if it was missing. */
  lemma MessageRoundTrip(conn: nat, form: Form, key: Option<seq<Byte>>, header: seq<Byte>, msgId: seq<Byte>,
                         dataLen: seq<Byte>, data: Option<seq<Byte>>, more: seq<Byte>)
    requires |header| == HEADER_SIZE && |msgId| == |dataLen| == 2 && (data.Some? ==> |data.value| == Le(dataLen))
    requires FitsForm(form, |Layout(header, msgId, dataLen, data)|) && (key.Some? ==> |key.value| == 4)
    ensures var f := Frame(0x82, form, key, Layout(header, msgId, dataLen, data));
      var body := if Le(dataLen) == 0 then None else if data.Some? then data else Some(Zeros(Le(dataLen)));
      Front(conn, f + more) == Take([Got(Message(conn, header[..10], msgId, dataLen, body))], |f|)
  {
    hide See, Interpret, Layout, Frame, Le;
    LayoutRoundTrip(conn, header, msgId, dataLen, data);
    FrameRoundTrip(0x82, form, key, Layout(header, msgId, dataLen, data), more);
    assert (0x82 as Byte) & 0x0F == 2;
  }

  /** A stream of data frames, each with any first byte, form and key the peer chose, delivers
      the messages in their payloads, in order. */
  datatype Sent = Sent(b0: Byte, form: Form, key: Option<seq<Byte>>, payload: seq<Byte>)

  predicate Sendable(f: Sent) {
    && FitsForm(f.form, |f.payload|) && (f.key.Some? ==> |f.key.value| == 4)
    && |f.payload| <= MAX_PACKET_SIZE && (f.b0 & 0x0F == 1 || f.b0 & 0x0F == 2)
  }

  function PieceOf(conn: nat, f: Sent): Piece<Event>
    requires Sendable(f)
  {
    Piece(Frame(f.b0, f.form, f.key, f.payload), Interpret(conn, f.payload))
  }

  function Pieces(conn: nat, fs: seq<Sent>): seq<Piece<Event>>
    requires forall f :: f in fs ==> Sendable(f)
  {
    seq(|fs|, i requires 0 <= i < |fs| => PieceOf(conn, fs[i]))
  }

  lemma PieceIsWhole(conn: nat, f: Sent)
    requires Sendable(f)
    ensures Streams.Whole(Frames(conn), PieceOf(conn, f))
  {
    hide See, Interpret;
    var p := PieceOf(conn, f);
    forall more ensures Frames(conn)(p.bytes + more) == Take(p.out, |p.bytes|) {
      FrameRoundTrip(f.b0, f.form, f.key, f.payload, more);
    }
  }

  lemma FrameStreamRoundTrip(conn: nat, fs: seq<Sent>)
    requires forall f :: f in fs ==> Sendable(f)
    ensures Parse(Frames(conn), AllBytes(Pieces(conn, fs))) == Parsed(AllOut(Pieces(conn, fs)), [], false)
  {
    hide Parse, Interpret, Frame, Sendable;
    var ps := Pieces(conn, fs);
    forall p | p in ps ensures Streams.Whole(Frames(conn), p) {
      var i :| 0 <= i < |ps| && ps[i] == p;
      assert fs[i] in fs;
      PieceIsWhole(conn, fs[i]);
    }
    PiecesRoundTrip(Frames(conn), ps);
  }

  // ---- the code ---------------------------------------------------------------------

  /** Wraps data into one unmasked binary frame with the shortest length form. */
  method BuildFrame(data: seq<Byte>) returns (frame: seq<Byte>)
    requires |data| < Pow256(8)
    ensures frame == Frame(0x82, Minimal(|data|), None, data)
  {
    var len := |data|;
    frame := [0x82];
    if len <= 125 {
      frame := frame + [ByteOf(len)];
    } else if len <= 65535 {
      frame := frame + [126];
      frame := frame + [ByteOf(len / 0x100 % 0x100)];
      frame := frame + [ByteOf(len % 0x100)];
      TwoBytes(len);
    } else {
      frame := frame + [127];
      var i := 8;
      while i > 0
        invariant 0 <= i <= 8
        invariant frame == [0x82, 127] + ToBe(ShiftRight(len, i), 8 - i)
      {
        i := i - 1;
        NextByte(len, i);
        frame := frame + [ByteOf(ShiftRight(len, i) % 0x100)];
      }
    }
    frame := frame + data;
  }

  lemma TwoBytes(n: nat)
    requires n <= 65535
    ensures ToBe(n, 2) == [ByteOf(n / 0x100 % 0x100), ByteOf(n % 0x100)]
  {
    assert ToBe(n / 0x100, 1) == ToBe(n / 0x100 / 0x100, 0) + [ByteOf(n / 0x100 % 0x100)];
  }

  /** n >> 8k */
  function ShiftRight(n: nat, k: nat): nat { if k == 0 then n else ShiftRight(n, k - 1) / 0x100 }

  lemma NextByte(n: nat, i: nat)
    requires i < 8
    ensures ToBe(ShiftRight(n, i), 8 - i) == ToBe(ShiftRight(n, i + 1), 7 - i) + [ByteOf(ShiftRight(n, i) % 0x100)]
  {
    hide ToBe;
    ToBeStep(ShiftRight(n, i), 7 - i);
  }

  lemma ToBeStep(m: nat, k: nat)
    ensures ToBe(m, k + 1) == ToBe(m / 0x100, k) + [ByteOf(m % 0x100)]
  {
  }

  class WsConn {
    const connId: nat
    var recvBuf: seq<Byte>
    var events: seq<Event>   // messages handed on and pongs written, in order
    var removed: bool

    constructor (id: nat)
      ensures connId == id && recvBuf == [] && events == [] && !removed
    {
      connId, recvBuf, events, removed := id, [], [], false;
    }

    ghost function View(): Conn<Event>
      reads this
    {
      Conn(recvBuf, events, removed)
    }

    /** Bytes read from the socket join the buffer, then the frames in it are parsed. */
    method OnBytes(chunk: seq<Byte>)
      requires !removed
      modifies this
      ensures View() == Feed(Frames(connId), old(View()), chunk)
    {
      hide Parse;
      recvBuf := recvBuf + chunk;
      var _ := ParseFrames();
    }

    method ParseFrames() returns (open: bool)
      requires !removed
      modifies this
      ensures open == !removed
      ensures var r := Parse(Frames(connId), old(recvBuf));
        recvBuf == r.rest && events == old(events) + r.out && removed == r.closed
    {
      hide Parse, See, Interpret, Payload, PayloadLen, HeadSize;
      ghost var got: seq<Event> := [];
      while |recvBuf| >= 2
        invariant !removed && events == old(events) + got
        invariant var r := Parse(Frames(connId), old(recvBuf)); var v := Parse(Frames(connId), recvBuf);
          r == Parsed(got + v.out, v.rest, v.closed)
        decreases |recvBuf|
      {
        assert got + [] == got;
        ParseStep(connId, recvBuf);
        SeeStep(recvBuf);
        var b0, b1 := recvBuf[0], recvBuf[1];
        var opcode := b0 & 0x0F;
        var headSize := HeadSize(b1);
        if |recvBuf| < headSize {
          return true;
        }
        var payloadLen := ReadLength(recvBuf);
        if payloadLen > MAX_PACKET_SIZE {
          removed := true;
          return false;
        }
        if |recvBuf| < headSize + payloadLen {
          return true;
        }
        var payload := ReadPayload(recvBuf, payloadLen);
        recvBuf := recvBuf[headSize + payloadLen..];
        if opcode == 8 {
          removed := true;
          return false;
        }
        ghost var out := OutOf(connId, opcode, payload);
        ghost var v := Parse(Frames(connId), recvBuf);
        Regrouped(old(events), got, out, v.out);
        got := got + out;
        if opcode == 9 {
          events := events + [Pong];
        } else if opcode == 2 || opcode == 1 {
          events := events + Interpret(connId, payload);
        }
      }
      ParseStep(connId, recvBuf);
      SeeShort(recvBuf);
      assert got + [] == got;
      open := true;
    }
  }

  lemma Regrouped(events: seq<Event>, got: seq<Event>, out: seq<Event>, later: seq<Event>)
    ensures got + (out + later) == got + out + later
    ensures events + got + out == events + (got + out)
    ensures events + got + [] == events + got
  {
  }

  method ReadPayload(buf: seq<Byte>, payloadLen: nat) returns (payload: seq<Byte>)
    requires |buf| >= 2 && |buf| >= HeadSize(buf[1]) && payloadLen == PayloadLen(buf)
    requires |buf| >= HeadSize(buf[1]) + payloadLen
    ensures payload == Payload(buf)
  {
    var h := HeadSize(buf[1]);
    payload := buf[h..h + payloadLen];
    if IsMasked(buf[1]) {
      payload := Unmask(payload, buf[h - 4..h]);
    }
  }

  /** The shift-and-or loops over the extended length. */
  method ReadLength(buf: seq<Byte>) returns (n: nat)
    requires |buf| >= 2 && |buf| >= HeadSize(buf[1])
    ensures n == PayloadLen(buf)
  {
    n := Len7(buf[1]);
    if n == 126 || n == 127 {
      var e := if n == 126 then 2 else 8;
      n := 0;
      var i := 0;
      while i < e
        invariant 0 <= i <= e && n == Be(buf[2..2 + i])
      {
        assert buf[2..2 + i + 1][..i] == buf[2..2 + i];
        n := 0x100 * n + buf[2 + i] as nat;
        i := i + 1;
      }
    }
  }

  method Unmask(raw: seq<Byte>, mask: seq<Byte>) returns (payload: seq<Byte>)
    requires |mask| == 4
    ensures payload == Masked(raw, mask)
  {
    payload := raw;
    var i := 0;
    while i < |payload|
      invariant 0 <= i <= |payload| == |raw|
      invariant forall j :: 0 <= j < |raw| ==> payload[j] == if j < i then raw[j] ^ mask[j % 4] else raw[j]
    {
      payload := payload[i := payload[i] ^ mask[i % 4]];
      i := i + 1;
    }
  }

  function OutOf(conn: nat, opcode: Byte, payload: seq<Byte>): seq<Event> {
    if opcode == 9 then [Pong] else if opcode != 2 && opcode != 1 then [] else Interpret(conn, payload)
  }

  lemma ParseStep(conn: nat, buf: seq<Byte>)
    ensures See(buf).More? ==> Parse(Frames(conn), buf) == Parsed([], buf, false)
    ensures See(buf).TooBig? ==> Parse(Frames(conn), buf) == Parsed([], buf, true)
    ensures See(buf).Whole? ==> See(buf).size <= |buf|
    ensures See(buf).Whole? && See(buf).opcode == 8 ==> Parse(Frames(conn), buf) == Parsed([], buf[See(buf).size..], true)
    ensures See(buf).Whole? && See(buf).opcode != 8 ==>
      var r := Parse(Frames(conn), buf[See(buf).size..]);
      Parse(Frames(conn), buf) == Parsed(OutOf(conn, See(buf).opcode, See(buf).payload) + r.out, r.rest, r.closed)
  {
    hide See, Interpret;
    SeeBounds(buf);
  }

  lemma SeeStep(buf: seq<Byte>)
    requires |buf| >= 2
    ensures HeadSize(buf[1]) >= 2
    ensures See(buf) ==
      if |buf| < HeadSize(buf[1]) then More
      else if PayloadLen(buf) > MAX_PACKET_SIZE then TooBig
      else if |buf| < HeadSize(buf[1]) + PayloadLen(buf) then More
      else Whole(buf[0] & 0x0F, Payload(buf), HeadSize(buf[1]) + PayloadLen(buf))
  {
  }

  lemma SeeShort(buf: seq<Byte>)
    requires |buf| < 2
    ensures See(buf) == More
  {
  }
}
