// The packet parser of a TCP connection (server/core/network/TcpConnection.cpp) over its
// receive ring: what it delivers, and that it does not depend on how the stream is cut.
//
// Layout of a packet (server/core/network/PackBase.h and AppMsg.h, packed): version at 0, type
// at 1, pack_len at 2..6, seq at 6..10, conn_id at 10..18, msg_id at 18..20, data_len at
// 20..22, the data pointer at 22..30, co_id, source and destination at 30..70, then the body.
// Multi-byte fields are little-endian, as on the hosts the program runs on.
module TcpFraming {
  import opened Bytes
  import opened Ring
  import opened Streams

  const HEADER_SIZE: nat := 18
  const APP_MSG_SIZE: nat := 70
  const MAGIC_VERSION: Byte := 1
  const MAX_PACKET_SIZE: nat := 1048576

  function PackLen(p: seq<Byte>): nat
    requires |p| >= HEADER_SIZE
  {
    Le(p[2..6])
  }

  function DataLen(p: seq<Byte>): nat
    requires |p| >= APP_MSG_SIZE
  {
    Le(p[20..22])
  }

  /** A delivered message: the packet's own fields, the rewritten connection id and data pointer. */
  datatype Message = Message(conn: nat, head: seq<Byte>, ids: seq<Byte>, route: seq<Byte>, body: seq<Byte>)

  function Deliver(conn: nat, p: seq<Byte>): Message
    requires |p| >= APP_MSG_SIZE
  {
    Message(conn, p[..10], p[18..22], p[30..70], p[70..])
  }

  predicate WellFormed(p: seq<Byte>) {
    && APP_MSG_SIZE <= |p| <= MAX_PACKET_SIZE && p[0] == MAGIC_VERSION
    && PackLen(p) == |p| && DataLen(p) + APP_MSG_SIZE == |p|
  }

  // ---- what processRecvBuffer does with the front of its buffer ----------------------

  function Front(conn: nat, buf: seq<Byte>): Step<Message> {
    if |buf| < HEADER_SIZE then Wait
    else if buf[0] != MAGIC_VERSION then Stop([], 0)
    else
      var n := PackLen(buf);
      if n < APP_MSG_SIZE || n > MAX_PACKET_SIZE then Stop([], 0)
      else if |buf| < n then Wait
      else if DataLen(buf[..n]) + APP_MSG_SIZE != n then Stop([], n)
      else Take([Deliver(conn, buf[..n])], n)
  }

  function Packets(conn: nat): Look<Message> { (buf: seq<Byte>) => Front(conn, buf) }

  lemma FrontExtend(conn: nat, buf: seq<Byte>, more: seq<Byte>)
    ensures Front(conn, buf).Wait? || Front(conn, buf + more) == Front(conn, buf)
  {
    hide Le, Deliver;
    if |buf| >= HEADER_SIZE {
      TakeOfConcat(buf, more, 2, 6);
      var n := PackLen(buf);
      if n <= |buf| {
        TakeOfConcat(buf, more, 0, n);
      }
    }
  }

  lemma PacketsIncremental(conn: nat)
    ensures Bounded(Packets(conn)) && Stable(Packets(conn))
  {
    hide Le, Deliver;
    forall b, more ensures Packets(conn)(b).Wait? || Packets(conn)(b + more) == Packets(conn)(b) {
      FrontExtend(conn, b, more);
    }
  }

  /** However the stream of a connection is cut into pushes that fit the ring, the messages
      delivered and the decision to close are those of one parse of the whole stream. */
  lemma TcpChunkingIndependent(conn: nat, chunks: seq<seq<Byte>>)
    requires chunks != []
    ensures var w := Parse(Packets(conn), Concat(chunks));
      var z := FeedAll(Packets(conn), Conn([], [], false), chunks);
      z.delivered == w.out && z.closed == w.closed && (!z.closed ==> z.rest == w.rest)
  {
    hide Parse, Bounded, Stable;
    PacketsIncremental(conn);
    ChunkingIndependent(Packets(conn), Conn([], [], false), chunks);
    assert [] + Concat(chunks) == Concat(chunks);
  }

  // ---- well-formed streams ----------------------------------------------------------

  function Sent(conn: nat, packets: seq<seq<Byte>>): seq<Piece<Message>>
    decreases |packets|
  {
    if packets == [] then []
    else
      [Piece(packets[0], if |packets[0]| >= APP_MSG_SIZE then [Deliver(conn, packets[0])] else [])]
      + Sent(conn, packets[1..])
  }

  lemma FrontWellFormed(conn: nat, p: seq<Byte>, more: seq<Byte>)
    requires WellFormed(p)
    ensures Front(conn, p + more) == Take([Deliver(conn, p)], |p|)
  {
    hide Le, Deliver;
    TakeOfConcat(p, more, 2, 6);
    TakeOfConcat(p, more, 0, |p|);
    assert p[..|p|] == p;
  }

  lemma {:induction false} SentAreWhole(conn: nat, packets: seq<seq<Byte>>)
    requires forall p :: p in packets ==> WellFormed(p)
    ensures forall q :: q in Sent(conn, packets) ==> Whole(Packets(conn), q)
    ensures AllBytes(Sent(conn, packets)) == Concat(packets)
    decreases |packets|
  {
    hide Front, Deliver;
    if packets != [] {
      var p, rest := packets[0], packets[1..];
      assert p in packets && WellFormed(p) && forall q :: q in rest ==> q in packets;
      SentAreWhole(conn, rest);
      var all := Sent(conn, packets);
      forall more ensures Packets(conn)(all[0].bytes + more) == Take(all[0].out, |all[0].bytes|) {
        FrontWellFormed(conn, p, more);
      }
      assert all[1..] == Sent(conn, rest);
      assert forall q :: q in all ==> q == all[0] || q in all[1..];
    }
  }

  /** Any concatenation of well-formed packets delivers exactly those packets, in order, and
      leaves nothing over. */
  lemma PacketsRoundTrip(conn: nat, packets: seq<seq<Byte>>)
    requires forall p :: p in packets ==> WellFormed(p)
    ensures Parse(Packets(conn), Concat(packets)) == Parsed(AllOut(Sent(conn, packets)), [], false)
    ensures |AllOut(Sent(conn, packets))| == |packets|
    ensures forall i :: 0 <= i < |packets| ==> |packets[i]| >= APP_MSG_SIZE
    ensures forall i :: 0 <= i < |packets| ==> AllOut(Sent(conn, packets))[i] == Deliver(conn, packets[i])
  {
    hide Parse, Deliver;
    SentAreWhole(conn, packets);
    assert Packets(conn)([]) == Wait;
    PiecesRoundTrip(Packets(conn), Sent(conn, packets));
    SentOut(conn, packets);
  }

  lemma {:induction false} SentOut(conn: nat, packets: seq<seq<Byte>>)
    requires forall p :: p in packets ==> WellFormed(p)
    ensures |AllOut(Sent(conn, packets))| == |packets|
    ensures forall i :: 0 <= i < |packets| ==> |packets[i]| >= APP_MSG_SIZE
    ensures forall i :: 0 <= i < |packets| ==> AllOut(Sent(conn, packets))[i] == Deliver(conn, packets[i])
    decreases |packets|
  {
    hide Deliver;
    if packets != [] {
      var rest := packets[1..];
      assert packets[0] in packets && WellFormed(packets[0]) && forall q :: q in rest ==> q in packets;
      SentOut(conn, rest);
      assert Sent(conn, packets)[1..] == Sent(conn, rest);
    }
  }

  // ---- packets by their fields --------------------------------------------------------

  /** The fields of a packet as they lie in it, widths 10, 8, 4, 8, 40 and the body's. */
  datatype Fields = Fields(head: seq<Byte>, oldConn: seq<Byte>, ids: seq<Byte>, ptr: seq<Byte>, route: seq<Byte>, body: seq<Byte>)

  /** Version 1; pack_len, four bytes from the third on, counts the whole packet; data_len, the
      last two bytes of the ids, counts the body, both with the least significant byte first; no
      packet is longer than 2^20. */
  predicate FieldsOk(f: Fields) {
    && |f.head| == 10 && |f.oldConn| == 8 && |f.ids| == 4 && |f.ptr| == 8 && |f.route| == 40 && f.head[0] == 1
    && Le(f.head[2..6]) == 70 + |f.body| <= 0x10_0000 && Le(f.ids[2..4]) == |f.body|
  }

  function Laid(f: Fields): seq<Byte> { f.head + f.oldConn + f.ids + f.ptr + f.route + f.body }

  lemma Middle(a: seq<Byte>, m: seq<Byte>, z: seq<Byte>)
    ensures (a + m + z)[|a|..|a| + |m|] == m
  {
  }

  lemma Reassoc(a: seq<Byte>, b: seq<Byte>, c: seq<Byte>)
    ensures a + b + c == a + (b + c)
  {
  }

  lemma Slices(f: Fields)
    requires |f.head| == 10 && |f.oldConn| == 8 && |f.ids| == 4 && |f.ptr| == 8 && |f.route| == 40
    ensures var p := Laid(f);
      && |p| == 70 + |f.body| && p[0..10] == f.head && p[18..22] == f.ids && p[30..70] == f.route && p[70..] == f.body
  {
    var a, c := f.head + f.oldConn, f.head + f.oldConn + f.ids + f.ptr;
    var tail := f.ptr + f.route + f.body;
    Middle([], f.head, f.oldConn + f.ids + f.ptr + f.route + f.body);
    assert [] + f.head == f.head;
    Middle(a, f.ids, tail);
    Middle(c, f.route, f.body);
    assert Laid(f) == f.head + (f.oldConn + f.ids + f.ptr + f.route + f.body);
    assert Laid(f) == a + f.ids + tail;
  }

  lemma LaidIs(conn: nat, f: Fields)
    requires FieldsOk(f)
    ensures WellFormed(Laid(f)) && Deliver(conn, Laid(f)) == Message(conn, f.head, f.ids, f.route, f.body)
  {
    hide Le, Laid;
    Slices(f);
    var p := Laid(f);
    assert p[..10] == p[0..10];
    Within(p, 0, 10, 2, 6);
    Within(p, 18, 22, 2, 4);
    assert p[0] == p[0..10][0];
  }

  lemma Within(p: seq<Byte>, lo: nat, hi: nat, i: nat, j: nat)
    requires lo <= hi <= |p| && i <= j <= hi - lo
    ensures p[lo..hi][i..j] == p[lo + i..lo + j]
  {
    var a, b := p[lo..hi][i..j], p[lo + i..lo + j];
    assert forall k :: 0 <= k < j - i ==> a[k] == b[k];
  }

  /** One packet delivers the message with its own fields and the connection's own id. */
  lemma FieldsRoundTrip(conn: nat, f: Fields)
    requires FieldsOk(f)
    ensures Parse(Packets(conn), f.head + f.oldConn + f.ids + f.ptr + f.route + f.body) ==
      Parsed([Message(conn, f.head, f.ids, f.route, f.body)], [], false)
  {
    hide Parse, Deliver, WellFormed, Laid, FieldsOk, Front;
    AllFieldsRoundTrip(conn, [f]);
    StreamOfOne(f);
    assert seq(1, i requires 0 <= i < 1 => Message(conn, [f][i].head, [f][i].ids, [f][i].route, [f][i].body)) ==
      [Message(conn, f.head, f.ids, f.route, f.body)];
  }

  lemma StreamOfOne(f: Fields)
    ensures Stream([f]) == f.head + f.oldConn + f.ids + f.ptr + f.route + f.body
  {
    assert [f][1..] == [];
    assert Stream([f][1..]) == [];
    Reassoc(f.head + f.oldConn + f.ids + f.ptr + f.route, f.body, []);
    assert f.body + [] == f.body;
  }

  function Stream(fs: seq<Fields>): seq<Byte>
    decreases |fs|
  {
    if fs == [] then []
    else fs[0].head + fs[0].oldConn + fs[0].ids + fs[0].ptr + fs[0].route + fs[0].body + Stream(fs[1..])
  }

  /** So does any sequence of packets, in order. */
  lemma AllFieldsRoundTrip(conn: nat, fs: seq<Fields>)
    requires forall f :: f in fs ==> FieldsOk(f)
    ensures Parse(Packets(conn), Stream(fs)) ==
      Parsed(seq(|fs|, i requires 0 <= i < |fs| => Message(conn, fs[i].head, fs[i].ids, fs[i].route, fs[i].body)), [], false)
  {
    hide Parse, Deliver, WellFormed, Laid, FieldsOk;
    var packets := seq(|fs|, i requires 0 <= i < |fs| => Laid(fs[i]));
    forall i | 0 <= i < |fs| ensures WellFormed(packets[i]) && |packets[i]| >= APP_MSG_SIZE
      && Deliver(conn, packets[i]) == Message(conn, fs[i].head, fs[i].ids, fs[i].route, fs[i].body)
    {
      assert fs[i] in fs;
      LaidIs(conn, fs[i]);
      IsLong(packets[i]);
    }
    PacketsRoundTrip(conn, packets);
    StreamIs(fs, packets);
    assert AllOut(Sent(conn, packets)) ==
      seq(|fs|, i requires 0 <= i < |fs| => Message(conn, fs[i].head, fs[i].ids, fs[i].route, fs[i].body));
  }

  lemma IsLong(p: seq<Byte>)
    requires WellFormed(p)
    ensures |p| >= APP_MSG_SIZE
  {
  }

  lemma {:induction false} StreamIs(fs: seq<Fields>, packets: seq<seq<Byte>>)
    requires |packets| == |fs| && forall i :: 0 <= i < |fs| ==> packets[i] == Laid(fs[i])
    ensures Concat(packets) == Stream(fs)
    decreases |fs|
  {
    if fs != [] {
      StreamIs(fs[1..], packets[1..]);
    }
  }

  /** Conversely: every unit taken off the stream was a well-formed packet. */
  lemma {:induction false} TakenWereWellFormed(conn: nat, buf: seq<Byte>)
    ensures forall p :: p in Taken(Packets(conn), buf) ==>
      WellFormed(p.bytes) && p.out == [Deliver(conn, p.bytes)]
    decreases |buf|
  {
    hide WellFormed, Deliver, Front;
    var s := Packets(conn)(buf);
    if s.Take? && 0 < s.used <= |buf| {
      TakenIsWellFormed(conn, buf);
      TakenWereWellFormed(conn, buf[s.used..]);
      var ps := Taken(Packets(conn), buf);
      assert forall p :: p in ps ==> p == Piece(buf[..s.used], s.out) || p in Taken(Packets(conn), buf[s.used..]);
    }
  }

  lemma TakenIsWellFormed(conn: nat, buf: seq<Byte>)
    requires Front(conn, buf).Take?
    ensures var s := Front(conn, buf);
      && s.used <= |buf| && WellFormed(buf[..s.used]) && s.out == [Deliver(conn, buf[..s.used])]
  {
    hide Le, Deliver;
    var n := PackLen(buf);
    assert buf[..n] + buf[n..] == buf;
    TakeOfConcat(buf[..n], buf[n..], 2, 6);
  }

  /** data_len has 16 bits: a header that announces more than 65605 bytes passes the length
      check and then never yields a message. */
  lemma LongPacketNeverDelivered(conn: nat, buf: seq<Byte>)
    requires |buf| >= HEADER_SIZE && PackLen(buf) > 65535 + APP_MSG_SIZE
    ensures Parse(Packets(conn), buf).out == []
  {
    if |buf| >= PackLen(buf) {
      LeOfTwo(buf[..PackLen(buf)][20..22]);
    }
  }

  // ---- the connection ---------------------------------------------------------------

  /** The tests of processRecvBuffer, one after another. */
  lemma ParseStep(conn: nat, c: seq<Byte>)
    ensures Parse(Packets(conn), c) ==
      if |c| < HEADER_SIZE then Parsed([], c, false)
      else if c[0] != MAGIC_VERSION || PackLen(c) < APP_MSG_SIZE || PackLen(c) > MAX_PACKET_SIZE then Parsed([], c, true)
      else if |c| < PackLen(c) then Parsed([], c, false)
      else if DataLen(c[..PackLen(c)]) + APP_MSG_SIZE != PackLen(c) then Parsed([], c[PackLen(c)..], true)
      else
        var r := Parse(Packets(conn), c[PackLen(c)..]);
        Parsed([Deliver(conn, c[..PackLen(c)])] + r.out, r.rest, r.closed)
  {
    hide Le;
  }

  lemma ConcatNone(chunks: seq<seq<Byte>>)
    ensures Concat(chunks[..0]) == [] && chunks[0..] == chunks
  {
    assert chunks[..0] == [];
  }

  lemma HeaderOf(c: seq<Byte>)
    requires |c| >= HEADER_SIZE
    ensures PackLen(c[..HEADER_SIZE]) == PackLen(c)
  {
    assert c[..HEADER_SIZE][2..6] == c[2..6];
  }

  lemma PopIs(c: seq<Byte>, front: seq<Byte>, rest: seq<Byte>)
    requires c == front + rest
    ensures front == c[..|front|] && rest == c[|front|..]
  {
  }

  /** How the read loop of one readable event ends. */
  datatype Ending = Again | Eof | Error

  class Connection {
    const id: nat
    const recvBuffer: ByteRing
    var delivered: seq<Message>
    var closed: bool

    ghost predicate Valid()
      reads this, recvBuffer
    {
      recvBuffer.Valid()
    }

    ghost function View(): Conn<Message>
      requires Valid()
      reads this, recvBuffer, recvBuffer.buffer
    {
      Conn(recvBuffer.Contents(), delivered, closed)
    }

    constructor (connId: nat, ring: ByteRing)
      requires ring.Valid()
      ensures Valid() && id == connId && recvBuffer == ring && delivered == [] && !closed
    {
      id, recvBuffer, delivered, closed := connId, ring, [], false;
    }

    method ProcessRecvBuffer()
      requires Valid()
      modifies this, recvBuffer
      ensures Valid()
      ensures var r := Parse(Packets(id), old(recvBuffer.Contents()));
        && delivered == old(delivered) + r.out && recvBuffer.Contents() == r.rest
        && closed == (old(closed) || r.closed)
    {
      hide Front, Parse, Deliver, Le, Window, UsedOf;
      ghost var whole := recvBuffer.Contents();
      ghost var got: seq<Message> := [];
      while true
        invariant Valid() && closed == old(closed) && delivered == old(delivered) + got
        invariant var r := Parse(Packets(id), whole); var v := Parse(Packets(id), recvBuffer.Contents());
          r == Parsed(got + v.out, v.rest, v.closed)
        decreases |recvBuffer.Contents()|
      {
        ghost var c := recvBuffer.Contents();
        ParseStep(id, c);
        assert got + [] == got;
        var size := recvBuffer.Used();
        if size < HEADER_SIZE {
          return;
        }
        var _, header := recvBuffer.Peek(HEADER_SIZE);
        HeaderOf(c);
        if header[0] != MAGIC_VERSION {
          closed := true;
          return;
        }
        var n := PackLen(header);
        if n < APP_MSG_SIZE || n > MAX_PACKET_SIZE {
          closed := true;
          return;
        }
        if size < n {
          return;
        }
        var _, raw := recvBuffer.Pop(n);
        PopIs(c, raw, recvBuffer.Contents());
        if DataLen(raw) + APP_MSG_SIZE != n {
          closed := true;
          return;
        }
        delivered := delivered + [Deliver(id, raw)];
        ghost var v := Parse(Packets(id), recvBuffer.Contents());
        assert got + ([Deliver(id, raw)] + v.out) == got + [Deliver(id, raw)] + v.out;
        got := got + [Deliver(id, raw)];
      }
    }

    /** One readable event: `chunks` are the successful reads, in order, then `end`.  A chunk
        the ring cannot take closes the connection and nothing is parsed; at the end of the
        stream what is buffered is still parsed. */
    method OnReadable(chunks: seq<seq<Byte>>, end: Ending) returns (overflow: bool)
      requires Valid() && !closed
      modifies this, recvBuffer, recvBuffer.buffer
      ensures Valid()
      ensures overflow <==> |old(recvBuffer.Contents())| + |Concat(chunks)| > recvBuffer.buffer.Length - 1
      ensures overflow || end.Error? ==> closed && delivered == old(delivered)
      ensures !overflow && end.Again? ==> View() == Feed(Packets(id), old(View()), Concat(chunks))
      ensures !overflow && end.Eof? ==> View() == Feed(Packets(id), old(View()), Concat(chunks)).(closed := true)
    {
      hide Parse, Window, UsedOf, Packets, Concat;
      var i := 0;
      ConcatNone(chunks);
      while i < |chunks|
        invariant 0 <= i <= |chunks| && Valid() && !closed && delivered == old(delivered)
        invariant recvBuffer.Contents() == old(recvBuffer.Contents()) + Concat(chunks[..i])
        invariant |Concat(chunks)| == |Concat(chunks[..i])| + |Concat(chunks[i..])|
      {
        ConcatTake(chunks, i);
        var ok := recvBuffer.Push(chunks[i]);
        if !ok {
          closed := true;
          return true;
        }
        i := i + 1;
      }
      assert chunks[..i] == chunks;
      overflow := false;
      if end.Error? {
        closed := true;
        return;
      }
      closed := end.Eof?;
      ProcessRecvBuffer();
    }
  }
}
