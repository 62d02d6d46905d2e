// Incremental parsers of a byte stream: a parser looks at the front of its buffer, and waits,
// or takes a unit off it and goes on, or stops for good.
module Streams {
  import opened Bytes

  datatype Step<T> =
    | Wait
    | Take(out: seq<T>, used: nat)
    | Stop(out: seq<T>, used: nat)

  datatype Parsed<T> = Parsed(out: seq<T>, rest: seq<Byte>, closed: bool)

  type Look<!T> = seq<Byte> -> Step<T>

  /** Units are taken from the buffer, and never empty ones. */
  ghost predicate Bounded<T(!new)>(look: Look<T>) {
    && (forall b :: look(b).Take? ==> 0 < look(b).used <= |b|)
    && (forall b :: look(b).Stop? ==> look(b).used <= |b|)
  }

  /** What has been decided at the front of the buffer stays decided when more bytes arrive. */
  ghost predicate Stable<T(!new)>(look: Look<T>) {
    forall b, more :: look(b).Wait? || look(b + more) == look(b)
  }

  function Parse<T>(look: Look<T>, buf: seq<Byte>): Parsed<T>
    decreases |buf|
  {
    var s := look(buf);
    if s.Take? && 0 < s.used <= |buf| then
      var r := Parse(look, buf[s.used..]);
      Parsed(s.out + r.out, r.rest, r.closed)
    else if s.Stop? && s.used <= |buf| then Parsed(s.out, buf[s.used..], true)
    else Parsed([], buf, false)
  }

  lemma StepStays<T(!new)>(look: Look<T>, buf: seq<Byte>, more: seq<Byte>)
    requires Bounded(look) && Stable(look)
    ensures var s := look(buf);
      && (s.Wait? || look(buf + more) == s)
      && (s.Take? ==> 0 < s.used <= |buf|) && (s.Stop? ==> s.used <= |buf|)
  {
  }

  /** Parsing a prefix first and the rest later is parsing the whole; once closed, closed. */
  lemma {:induction false} ParseExtend<T(!new)>(look: Look<T>, buf: seq<Byte>, more: seq<Byte>)
    requires Bounded(look) && Stable(look)
    ensures var r := Parse(look, buf);
      var w := Parse(look, buf + more);
      if r.closed then w.closed && w.out == r.out
      else
        var v := Parse(look, r.rest + more);
        w == Parsed(r.out + v.out, v.rest, v.closed)
    decreases |buf|
  {
    hide Bounded, Stable, Parse;
    StepStays(look, buf, more);
    StepParses(look, buf);
    StepParses(look, buf + more);
    var s := look(buf);
    if s.Wait? {
      assert [] + Parse(look, buf + more).out == Parse(look, buf + more).out;
    } else if s.Take? {
      var n := s.used;
      ParseExtend(look, buf[n..], more);
      DropOfConcat(buf, more, n);
      var r := Parse(look, buf[n..]);
      if !r.closed {
        Assoc(s.out, r.out, Parse(look, r.rest + more).out);
      }
    }
  }

  lemma Assoc<T>(a: seq<T>, b: seq<T>, c: seq<T>)
    ensures a + b + c == a + (b + c)
  {
  }

  lemma StepParses<T>(look: Look<T>, buf: seq<Byte>)
    ensures var s := look(buf);
      && (s.Wait? ==> Parse(look, buf) == Parsed([], buf, false))
      && (s.Stop? && s.used <= |buf| ==> Parse(look, buf) == Parsed(s.out, buf[s.used..], true))
      && (s.Take? && 0 < s.used <= |buf| ==>
            var r := Parse(look, buf[s.used..]);
            Parse(look, buf) == Parsed(s.out + r.out, r.rest, r.closed))
  {
  }

  // ---- a connection fed chunk by chunk ----------------------------------------------

  /** Bytes left over, units delivered, closed. */
  datatype Conn<T> = Conn(rest: seq<Byte>, delivered: seq<T>, closed: bool)

  /** A chunk arrives and the buffer is parsed; a closed connection gets nothing any more. */
  function Feed<T>(look: Look<T>, c: Conn<T>, chunk: seq<Byte>): Conn<T> {
    if c.closed then c
    else
      var r := Parse(look, c.rest + chunk);
      Conn(r.rest, c.delivered + r.out, r.closed)
  }

  function FeedAll<T>(look: Look<T>, c: Conn<T>, chunks: seq<seq<Byte>>): Conn<T>
    decreases |chunks|
  {
    if chunks == [] then c else FeedAll(look, Feed(look, c, chunks[0]), chunks[1..])
  }

  function Concat<T>(parts: seq<seq<T>>): seq<T>
    decreases |parts|
  {
    if parts == [] then [] else parts[0] + Concat(parts[1..])
  }

  lemma {:induction false} ClosedStays<T>(look: Look<T>, c: Conn<T>, chunks: seq<seq<Byte>>)
    requires c.closed
    ensures FeedAll(look, c, chunks) == c
    decreases |chunks|
  {
    if chunks != [] {
      ClosedStays(look, c, chunks[1..]);
    }
  }

  /** However the stream is cut, the units delivered and the decision to close are those of one
      parse of the whole stream. */
  lemma {:induction false} ChunkingIndependent<T(!new)>(look: Look<T>, c: Conn<T>, chunks: seq<seq<Byte>>)
    requires Bounded(look) && Stable(look) && !c.closed && chunks != []
    ensures var w := Parse(look, c.rest + Concat(chunks));
      var z := FeedAll(look, c, chunks);
      && z.delivered == c.delivered + w.out && z.closed == w.closed
      && (!z.closed ==> z.rest == w.rest)
    decreases |chunks|
  {
    hide Parse, Bounded, Stable;
    var a, tail := chunks[0], Concat(chunks[1..]);
    var r := Parse(look, c.rest + a);
    ParseExtend(look, c.rest + a, tail);
    assert c.rest + Concat(chunks) == c.rest + a + tail;
    var d := Feed(look, c, a);
    if r.closed {
      ClosedStays(look, d, chunks[1..]);
    } else if chunks[1..] == [] {
      assert chunks == [a];
      assert a + tail == a && c.rest + a + tail == c.rest + a;
    } else {
      ChunkingIndependent(look, d, chunks[1..]);
      var v := Parse(look, r.rest + tail);
      assert c.delivered + r.out + v.out == c.delivered + (r.out + v.out);
    }
  }

  // ---- streams of whole units -------------------------------------------------------

  /** A unit's bytes and what it delivers, whatever follows it. */
  datatype Piece<T> = Piece(bytes: seq<Byte>, out: seq<T>)

  ghost predicate Whole<T(!new)>(look: Look<T>, p: Piece<T>) {
    p.bytes != [] && forall more :: look(p.bytes + more) == Take(p.out, |p.bytes|)
  }

  function AllBytes<T>(ps: seq<Piece<T>>): seq<Byte> {
    if ps == [] then [] else ps[0].bytes + AllBytes(ps[1..])
  }

  function AllOut<T>(ps: seq<Piece<T>>): seq<T> {
    if ps == [] then [] else ps[0].out + AllOut(ps[1..])
  }

  /** A concatenation of whole units delivers exactly what they deliver, in order. */
  lemma {:induction false} PiecesRoundTrip<T(!new)>(look: Look<T>, ps: seq<Piece<T>>)
    requires look([]) == Wait && forall p :: p in ps ==> Whole(look, p)
    ensures Parse(look, AllBytes(ps)) == Parsed(AllOut(ps), [], false)
    decreases |ps|
  {
    if ps != [] {
      var p, rest := ps[0], ps[1..];
      assert p in ps && Whole(look, p);
      assert forall q :: q in rest ==> q in ps;
      PiecesRoundTrip(look, rest);
      DropOfConcat(p.bytes, AllBytes(rest), |p.bytes|);
      assert p.bytes[|p.bytes|..] + AllBytes(rest) == AllBytes(rest);
    }
  }

  /** The units a parse has taken off the stream. */
  function Taken<T>(look: Look<T>, buf: seq<Byte>): seq<Piece<T>>
    decreases |buf|
  {
    var s := look(buf);
    if s.Take? && 0 < s.used <= |buf| then [Piece(buf[..s.used], s.out)] + Taken(look, buf[s.used..]) else []
  }

  /** Conversely, what is delivered on an open connection was a run of units at the front of
      the stream, and between them and the rest nothing is lost. */
  lemma {:induction false} DeliveredWereSent<T(!new)>(look: Look<T>, buf: seq<Byte>)
    requires !Parse(look, buf).closed
    ensures Parse(look, buf).out == AllOut(Taken(look, buf))
    ensures buf == AllBytes(Taken(look, buf)) + Parse(look, buf).rest
    decreases |buf|
  {
    hide AllBytes, AllOut;
    AllNone<T>();
    var s := look(buf);
    if s.Take? && 0 < s.used <= |buf| {
      var n := s.used;
      var later := Taken(look, buf[n..]);
      DeliveredWereSent(look, buf[n..]);
      AllCons(Piece(buf[..n], s.out), later);
      Assoc(buf[..n], AllBytes(later), Parse(look, buf[n..]).rest);
      assert buf[..n] + buf[n..] == buf;
    } else {
      assert [] + buf == buf;
    }
  }

  lemma AllNone<T>()
    ensures AllBytes<T>([]) == [] && AllOut<T>([]) == []
  {
  }

  lemma AllCons<T>(p: Piece<T>, ps: seq<Piece<T>>)
    ensures AllBytes([p] + ps) == p.bytes + AllBytes(ps) && AllOut([p] + ps) == p.out + AllOut(ps)
  {
    assert ([p] + ps)[1..] == ps;
  }

  lemma {:induction false} ConcatTake<T>(parts: seq<seq<T>>, i: nat)
    requires i < |parts|
    ensures Concat(parts[..i + 1]) == Concat(parts[..i]) + parts[i]
    ensures Concat(parts[i..]) == parts[i] + Concat(parts[i + 1..])
    decreases i
  {
    assert parts[i..][1..] == parts[i + 1..];
    if i == 0 {
      assert parts[..1] == [parts[0]] && [parts[0]][1..] == [] && parts[..0] == [];
    } else {
      ConcatTake(parts[1..], i - 1);
      assert parts[..i + 1][1..] == parts[1..][..i] && parts[..i][1..] == parts[1..][..i - 1];
      assert parts[1..][i - 1] == parts[i];
      assert parts[..i + 1][0] == parts[0] && parts[..i][0] == parts[0];
    }
  }
}
