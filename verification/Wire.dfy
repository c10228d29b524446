/** Backend messages cut out of a byte stream that arrives in pieces. */
module Wire {
  import opened Common
  import opened Bits

  datatype Message = Message(t: Byte, body: Bytes)

  /** The length field, a signed big-endian word that counts itself. */
  function Length(s: Bytes): int
    requires |s| >= 5
  {
    var n := 0x100_0000 * s[1] as int + 0x1_0000 * s[2] as int + 0x100 * s[3] as int + s[4] as int;
    if n < 0x8000_0000 then n else n - 0x1_0000_0000
  }

  /** The first message is complete. */
  predicate Complete(s: Bytes) {
    |s| >= 5 && |s| >= 1 + Length(s)
  }

  /** The first message: its body is empty when the length field does not even cover itself. */
  function First(s: Bytes): Message
    requires Complete(s)
  {
    Message(s[0], Subarray(s, 5, 1 + Length(s)))
  }

  /** What the reader keeps behind it; a negative position counts from the end. */
  function After(s: Bytes): Bytes
    requires Complete(s)
  {
    Subarray(s, 1 + Length(s), |s|)
  }

  /** What a reader makes of a stream: the messages it takes off and the bytes left over, or the messages it takes off
      before one that it reads again and again. */
  datatype Reading = Done(out: seq<Message>, rest: Bytes) | Stuck(out: seq<Message>)

  function Joined(out: seq<Message>, r: Reading): Reading { r.(out := out + r.out) }

  /** The whole stream at once. */
  function Read(s: Bytes): Reading
    decreases |s|
  {
    if !Complete(s) then Done([], s)
    else if After(s) == s then Stuck([])
    else StuckIff(s); Joined([First(s)], Read(After(s)))
  }

  /** The stream piece by piece, each piece read as far as it goes. */
  function ReadPieces(held: Bytes, pieces: seq<Bytes>): Reading
    decreases |pieces|
  {
    if pieces == [] then Done([], held)
    else
      var r := Read(held + pieces[0]);
      if r.Done? then Joined(r.out, ReadPieces(r.rest, pieces[1..])) else r
  }

  /** More bytes read after a reading. */
  function Onward(r: Reading, b: Bytes): Reading {
    if r.Done? then Joined(r.out, Read(r.rest + b)) else r
  }

  /** Every negative length field in reach is -1, or stands in the last five bytes, or points before the stream. */
  predicate Steady(s: Bytes)
    decreases |s|
  {
    Complete(s) ==>
      if Length(s) >= 0 then FirstBytes(s); Steady(After(s))
      else Length(s) == -1 || |s| == 5 || Length(s) <= -1 - |s|
  }

  lemma LengthOfPrefix(a: Bytes, b: Bytes)
    requires |a| >= 5
    ensures Length(a + b) == Length(a)
  {
  }

  lemma AfterAppend(a: Bytes, b: Bytes)
    requires Complete(a) && Length(a) >= 0
    ensures Complete(a + b) && (a + b)[1 + Length(a)..] == a[1 + Length(a)..] + b
    ensures First(a + b) == First(a) && After(a + b) == After(a) + b
  {
    hide Length, Subarray;
    LengthOfPrefix(a, b);
    FirstBytes(a);
    FirstBytes(a + b);
    assert (a + b)[1 + Length(a)..] == a[1 + Length(a)..] + b;
    if Length(a) >= 4 { assert (a + b)[5..1 + Length(a)] == a[5..1 + Length(a)]; }
  }

  /** What the first bytes of a stream say about its first message, when the length is not negative. */
  lemma FirstBytes(s: Bytes)
    requires Complete(s) && Length(s) >= 0
    ensures First(s) == Message(s[0], if Length(s) >= 4 then s[5..1 + Length(s)] else [])
    ensures After(s) == s[1 + Length(s)..] && |After(s)| < |s|
  {
    hide Length;
    if 1 + Length(s) == |s| { assert s[1 + Length(s)..] == []; }
  }

  /** More bytes behind a complete message change neither it nor what follows it, exactly if there are none, or the
      length field is at least -1, or it points before the front of all of them. */
  lemma AppendIff(a: Bytes, b: Bytes)
    requires Complete(a)
    ensures Complete(a + b)
    ensures First(a + b) == First(a) && After(a + b) == After(a) + b <==>
              b == [] || Length(a) >= -1 || Length(a) <= -1 - |a| - |b|
  {
    LengthOfPrefix(a, b);
    if Length(a) >= 0 {
      AfterAppend(a, b);
    } else {
      hide Length;
      assert b == [] ==> a + b == a;
      var k, m := Bound(1 + Length(a), |a|), Bound(1 + Length(a), |a + b|);
      assert |After(a)| == |a| - k && |After(a + b)| == |a + b| - m;
      assert k == m == 0 ==> a[0..] == a && (a + b)[0..] == a + b;
    }
  }

  /** The incremental reader. */
  class WireReader {
    var chunks: seq<Bytes>
    var len: nat

    ghost predicate Valid()
      reads this
    {
      len == |Concat(chunks)|
    }

    ghost function Buffered(): Bytes
      reads this
    {
      Concat(chunks)
    }

    constructor ()
      ensures Valid() && Buffered() == []
    {
      chunks, len := [], 0;
    }

    method Feed(bytes: Bytes)
      requires Valid()
      modifies this
      ensures Valid() && Buffered() == old(Buffered()) + bytes
    {
      if |bytes| > 0 {
        ConcatSnoc(chunks, bytes);
        chunks := chunks + [bytes];
        len := len + |bytes|;
      }
    }

    /** Gather all chunks into one. */
    method Compact()
      requires Valid()
      modifies this
      ensures Valid() && Buffered() == old(Buffered()) && |chunks| <= 1
    {
      if |chunks| <= 1 {
        return;
      }
      var all: Bytes := [];
      for i := 0 to |chunks|
        invariant chunks == old(chunks) && len == old(len) && all + Concat(chunks[i..]) == Concat(chunks)
      {
        assert chunks[i..][0] == chunks[i] && chunks[i..][1..] == chunks[i + 1..];
        all := all + chunks[i];
      }
      ConcatOne(all);
      chunks := [all];
    }

    /** The next complete message, if there is one, whatever the length field says. */
    method Next() returns (m: Option<Message>)
      requires Valid()
      modifies this
      ensures Valid()
      ensures m.None? <==> !Complete(old(Buffered()))
      ensures m.None? ==> Buffered() == old(Buffered())
      ensures m.Some? ==> m.value == First(old(Buffered())) && Buffered() == After(old(Buffered()))
    {
      ConcatNone();
      hide Length, Concat, Subarray;
      if len < 5 {
        return None;
      }
      Compact();
      var buf := if chunks == [] then [] else chunks[0];
      if chunks != [] { ConcatOne(buf); assert chunks == [buf]; }
      assert buf == Buffered();
      var length := Length(buf);
      if len < 1 + length {
        return None;
      }
      var rest := Subarray(buf, 1 + length, |buf|);
      m := Some(Message(buf[0], Subarray(buf, 5, 1 + length)));
      ConcatOne(rest);
      chunks := if |rest| > 0 then [rest] else [];
      len := |rest|;
    }
  }

  // ---- where framing ends ----------------------------------------------------------------------------------

  /** A message is read without moving on, so that the pump reads it again and again, exactly when the position after
      it comes out at or before the front of the buffer. */
  lemma StuckIff(s: Bytes)
    requires Complete(s)
    ensures After(s) == s <==> Length(s) == -1 || Length(s) <= -1 - |s|
    ensures After(s) != s <==> |After(s)| < |s|
  {
    hide Length;
    var k := Bound(1 + Length(s), |s|);
    assert k == 0 ==> s[0..|s|] == s;
  }

  /** The input on which the reader yields one message forever: a length field of -1. */
  lemma MinusOneIsStuck(t: Byte, rest: Bytes)
    ensures var s := [t, 0xFF, 0xFF, 0xFF, 0xFF] + rest; Complete(s) && Length(s) == -1 && After(s) == s
  {
    var s := [t, 0xFF, 0xFF, 0xFF, 0xFF] + rest;
    assert s[1] == s[2] == s[3] == s[4] == 0xFF;
    StuckIff(s);
  }

  /** Below -1 the position counts from the end of what has arrived so far, so the chunking shows. */
  lemma ChunkingShows(t: Byte, x: Byte)
    ensures var s := [t, 0xFF, 0xFF, 0xFF, 0xFE];
            Complete(s) && Length(s) == -2 && Complete(s + [x]) && After(s) + [x] == [0xFE, x] && After(s + [x]) == [x]
  {
    var s: Bytes := [t, 0xFF, 0xFF, 0xFF, 0xFE];
    var w := s + [x];
    assert w[1] == 0xFF && w[2] == 0xFF && w[3] == 0xFF && w[4] == 0xFE && w[5] == x;
    assert s[4..5] == [0xFE] && w[5..6] == [x];
  }

  // ---- chunking --------------------------------------------------------------------------------------------

  lemma JoinedTwice(a: seq<Message>, b: seq<Message>, r: Reading)
    ensures Joined(a, Joined(b, r)) == Joined(a + b, r) && Joined([], r) == r
  {
    assert a + (b + r.out) == (a + b) + r.out;
  }

  lemma JoinedOut(out: seq<Message>, r: Reading)
    ensures Joined(out, r).out == out + r.out
  {
  }

  lemma {:induction false} RestIncomplete(s: Bytes)
    requires Read(s).Done?
    ensures !Complete(Read(s).rest)
    decreases |s|
  {
    hide Complete, First, After;
    if Complete(s) {
      StuckIff(s);
      RestIncomplete(After(s));
    }
  }

  lemma OneMore(s: Bytes)
    requires Complete(s) && After(s) != s
    ensures |After(s)| < |s| && Read(s) == Joined([First(s)], Read(After(s)))
  {
    StuckIff(s);
  }

  lemma Incomplete(s: Bytes)
    requires !Complete(s)
    ensures Read(s) == Done([], s) && Steady(s)
  {
  }

  lemma SteadyMeans(s: Bytes)
    requires Complete(s)
    ensures Length(s) >= 0 ==> |After(s)| < |s| && (Steady(s) <==> Steady(After(s)))
    ensures Length(s) < 0 ==> (Steady(s) <==> Length(s) == -1 || |s| == 5 || Length(s) <= -1 - |s|)
  {
    if Length(s) >= 0 { FirstBytes(s); }
  }

  /** On a steady stream, what is read from a first part stays read; the rest is read from what it left and what follows. */
  lemma {:induction false} ReadAppend(a: Bytes, b: Bytes)
    requires Steady(a + b)
    ensures Read(a + b) == Onward(Read(a), b) && (Read(a).Done? ==> Steady(Read(a).rest + b))
    decreases |a|
  {
    hide Complete, First, After, Steady, Read, Joined, Length;
    JoinedTwice([], [], Read(a + b));
    if b == [] {
      assert a + b == a;
      if Read(a).Done? { NothingMore(a); }
    } else if !Complete(a) {
      Incomplete(a);
    } else {
      CompleteMeans(a);
      LengthOfPrefix(a, b);
      AppendIff(a, b);
      SteadyMeans(a + b);
      if Length(a) >= 0 {
        SteadyMeans(a);
        ReadAppend(After(a), b);
        AppendMore(a, b);
      } else {
        StuckIff(a);
        StuckIff(a + b);
        StuckAtOnce(a);
        StuckAtOnce(a + b);
      }
    }
  }

  lemma StuckAtOnce(s: Bytes)
    requires Complete(s) && After(s) == s
    ensures Read(s) == Stuck([])
  {
  }

  lemma NothingMore(a: Bytes)
    requires Read(a).Done?
    ensures var r := Read(a); Steady(r.rest + []) && Read(a) == Joined(r.out, Read(r.rest + []))
  {
    RestIncomplete(a);
    var rest := Read(a).rest;
    assert rest + [] == rest;
    Incomplete(rest);
  }

  lemma AppendMore(a: Bytes, b: Bytes)
    requires Complete(a) && Complete(a + b) && Length(a) >= 0
    requires First(a + b) == First(a) && After(a + b) == After(a) + b
    requires var r := Read(After(a)); Read(After(a) + b) == Onward(r, b) && (r.Done? ==> Steady(r.rest + b))
    ensures Read(a + b) == Onward(Read(a), b) && (Read(a).Done? ==> Steady(Read(a).rest + b))
  {
    hide Complete, First, After, Steady, Read, Length;
    CompleteMeans(a);
    LengthOfPrefix(a, b);
    FirstBytes(a);
    FirstBytes(a + b);
    OneMore(a);
    OneMore(a + b);
    var r := Read(After(a));
    if r.Done? { JoinedTwice([First(a)], r.out, Read(r.rest + b)); }
  }

  /** Whatever the pieces, a steady stream is read as if it had come at once. */
  lemma {:induction false} PiecesRead(held: Bytes, pieces: seq<Bytes>)
    requires !Complete(held) && Steady(held + Concat(pieces))
    ensures ReadPieces(held, pieces) == Read(held + Concat(pieces))
    decreases |pieces|
  {
    hide Complete, Steady, Read, Joined;
    if pieces == [] {
      ConcatNone();
      assert held + Concat(pieces) == held;
      Incomplete(held);
    } else {
      var now, later := held + pieces[0], Concat(pieces[1..]);
      ConcatCons(pieces);
      assert held + Concat(pieces) == now + later;
      ReadAppend(now, later);
      if Read(now).Done? {
        RestIncomplete(now);
        PiecesRead(Read(now).rest, pieces[1..]);
      }
    }
  }

  lemma TwoPieces(a: Bytes, b: Bytes)
    ensures ReadPieces([], [a, b]) == Onward(Read(a), b)
  {
    hide Read;
    assert [a, b][1..] == [b] && [b][1..] == [] && [] + a == a;
    if Read(a).Done? {
      var held := Read(a).rest;
      assert ReadPieces(held, [b]) == Read(held + b);
    }
  }

  /** A field below -1 with bytes behind it, before the front of which it does not point: cut behind the field. */
  lemma CutShows(s: Bytes)
    requires |s| > 5 && -1 - |s| < Length(s) < -1
    ensures ReadPieces([], [s[..5], s[5..]]) != Read(s)
  {
    var a, b := s[..5], s[5..];
    assert a + b == s;
    LengthOfPrefix(a, b);
    TwoPieces(a, b);
    hide Length, Joined;
    StuckIff(s);
    OneMore(s);
    StuckIff(a);
    if Length(a) <= -6 {
      StuckAtOnce(a);
      JoinedHas(First(s), Read(After(s)));
    } else {
      OneMore(a);
      var k := -1 - Length(a);
      assert |After(a)| == k == |After(s)|;
      Incomplete(After(a));
      Incomplete(After(s));
      JoinedDone([First(a)], After(a));
      JoinedDone([First(s)], After(s));
      JoinedMore(First(s), After(s), First(a), After(a) + b);
    }
  }

  lemma JoinedHas(m: Message, r: Reading)
    ensures Joined([m], r) != Stuck([])
  {
    assert |([m] + r.out)| >= 1;
  }

  lemma JoinedMore(m: Message, x: Bytes, m': Message, y: Bytes)
    requires |x| < |y|
    ensures Done([m], x) != Joined([m'], Read(y))
  {
    if Read(y).Done? && Read(y).out == [] { NothingTaken(y); }
  }

  lemma NothingTaken(s: Bytes)
    requires Read(s).Done? && Read(s).out == []
    ensures Read(s).rest == s
  {
    hide First, After;
  }

  /** A stream that is not steady can be cut so that it shows. */
  lemma {:induction false} UnsteadyShows(s: Bytes) returns (k: nat)
    requires !Steady(s)
    ensures 5 <= k <= |s| && ReadPieces([], [s[..k], s[k..]]) != Read(s)
    decreases |s|
  {
    hide First, After, Read, Joined, ReadPieces, Length, Steady, Complete;
    if !Complete(s) { Incomplete(s); }
    CompleteMeans(s);
    SteadyMeans(s);
    if Length(s) < 0 {
      CutShows(s);
      return 5;
    }
    var k' := UnsteadyShows(After(s));
    k := 1 + Length(s) + k';
    CutLater(s, k');
  }

  lemma CompleteMeans(s: Bytes)
    requires Complete(s)
    ensures |s| >= 5 && |s| >= 1 + Length(s)
  {
  }

  lemma CutBehind(s: Bytes, k: nat)
    requires Complete(s) && Length(s) >= 0 && 5 <= k <= |After(s)|
    ensures var j := 1 + Length(s) + k;
            && j <= |s| && Complete(s[..j]) && First(s[..j]) == First(s)
            && After(s[..j]) == After(s)[..k] && s[j..] == After(s)[k..]
    ensures |After(s)| < |s| && |After(s[..1 + Length(s) + k])| < 1 + Length(s) + k
  {
    FirstBytes(s);
    var j := 1 + Length(s) + k;
    var a, b := s[..j], s[j..];
    assert a + b == s;
    LengthOfPrefix(a, b);
    hide Length;
    AfterAppend(a, b);
    FirstBytes(a);
  }

  lemma CutLater(s: Bytes, k: nat)
    requires Complete(s) && Length(s) >= 0 && 5 <= k <= |After(s)|
    requires ReadPieces([], [After(s)[..k], After(s)[k..]]) != Read(After(s))
    ensures var j := 1 + Length(s) + k; j <= |s| && ReadPieces([], [s[..j], s[j..]]) != Read(s)
  {
    hide Read, ReadPieces, Joined, First, After, Length, Complete;
    CompleteMeans(s);
    CutBehind(s, k);
    var j := 1 + Length(s) + k;
    var a, b := s[..j], s[j..];
    OneMore(a);
    OneMore(s);
    TwoPieces(a, b);
    TwoPieces(After(a), b);
    JoinedApart(First(s), ReadPieces([], [After(a), b]), Read(After(s)));
    OnwardJoined([First(s)], Read(After(a)), b);
  }

  lemma OnwardJoined(out: seq<Message>, r: Reading, b: Bytes)
    ensures Onward(Joined(out, r), b) == Joined(out, Onward(r, b))
  {
    hide Read;
    if r.Done? { JoinedTwice(out, r.out, Read(r.rest + b)); }
  }

  lemma JoinedApart(m: Message, x: Reading, y: Reading)
    requires x != y
    ensures Joined([m], x) != Joined([m], y)
  {
    assert ([m] + x.out)[1..] == x.out && ([m] + y.out)[1..] == y.out;
  }

  /** Exactly the steady streams are read alike however they are cut. */
  lemma ChunkingIff(s: Bytes)
    ensures (forall pieces :: Concat(pieces) == s ==> ReadPieces([], pieces) == Read(s)) <==> Steady(s)
  {
    hide Read, ReadPieces, Concat, Steady;
    if Steady(s) {
      forall pieces | Concat(pieces) == s
        ensures ReadPieces([], pieces) == Read(s)
      {
        assert [] + s == s;
        PiecesRead([], pieces);
      }
    } else {
      var k := UnsteadyShows(s);
      ConcatTwo(s[..k], s[k..]);
      assert s[..k] + s[k..] == s;
    }
  }

  /** No length field in reach is negative. */
  predicate NonNegative(s: Bytes)
    decreases |s|
  {
    |s| >= 5 ==> Length(s) >= 0 && if Complete(s) then FirstBytes(s); NonNegative(After(s)) else true
  }

  /** Such a stream is steady, and its reading ends. */
  lemma {:induction false} NonNegativeIsSteady(s: Bytes)
    requires NonNegative(s)
    ensures Steady(s) && Read(s).Done?
    decreases |s|
  {
    if Complete(s) {
      FirstBytes(s);
      hide Length, First, Subarray;
      NonNegativeIsSteady(After(s));
      OneMore(s);
    }
  }

  lemma ConcatTwo(a: Bytes, b: Bytes)
    ensures Concat([a, b]) == a + b
  {
    ConcatOne(b);
    ConcatCons([a, b]);
    assert [a, b][1..] == [b];
  }

  /** Take every complete message out of the reader; this ends exactly on the buffers on which no message is read for ever. */
  method Drain(reader: WireReader) returns (out: seq<Message>)
    requires reader.Valid() && Read(reader.Buffered()).Done?
    modifies reader
    ensures reader.Valid() && Read(old(reader.Buffered())) == Done(out, reader.Buffered())
  {
    hide Complete, Read, First, After, Joined;
    out := [];
    var m := reader.Next();
    ghost var before := old(reader.Buffered());
    JoinedTwice([], [], Read(before));
    while m.Some?
      invariant reader.Valid() && Read(before).Done?
      invariant m.None? ==> !Complete(before) && reader.Buffered() == before
      invariant m.Some? ==> Complete(before) && m.value == First(before) && reader.Buffered() == After(before)
      invariant Read(old(reader.Buffered())) == Joined(out, Read(before))
      decreases |before|
    {
      NotStuck(before);
      JoinedTwice(out, [m.value], Read(After(before)));
      out := out + [m.value];
      before := After(before);
      m := reader.Next();
    }
    Incomplete(before);
    JoinedDone(out, before);
  }

  lemma NotStuck(s: Bytes)
    requires Complete(s) && Read(s).Done?
    ensures |After(s)| < |s| && Read(After(s)).Done? && Read(s) == Joined([First(s)], Read(After(s)))
  {
    if After(s) == s { StuckAtOnce(s); } else { OneMore(s); }
  }

  lemma JoinedDone(out: seq<Message>, rest: Bytes)
    ensures Joined(out, Done([], rest)) == Done(out, rest)
  {
  }

  /** The chunks read one by one; a steady stream is read as a whole. */
  method ReadChunks(chunks: seq<Bytes>) returns (out: seq<Message>, leftover: nat)
    requires ReadPieces([], chunks).Done?
    ensures out == ReadPieces([], chunks).out && leftover == |ReadPieces([], chunks).rest|
    ensures Steady(Concat(chunks)) ==> Read(Concat(chunks)).Done? && out == Read(Concat(chunks)).out
                                       && leftover == |Read(Concat(chunks)).rest|
  {
    hide Complete, Read, Steady, Joined, ReadPieces;
    var reader := new WireReader();
    out := [];
    assert chunks[0..] == chunks;
    JoinedTwice([], [], ReadPieces([], chunks));
    for i := 0 to |chunks|
      invariant fresh(reader) && reader.Valid()
      invariant ReadPieces([], chunks) == Joined(out, ReadPieces(reader.Buffered(), chunks[i..]))
    {
      ghost var held, later := reader.Buffered(), chunks[i..];
      assert later[0] == chunks[i] && later[1..] == chunks[i + 1..];
      NextPiece(held, later, out);
      reader.Feed(chunks[i]);
      var more := Drain(reader);
      JoinedTwice(out, more, ReadPieces(reader.Buffered(), chunks[i + 1..]));
      out := out + more;
    }
    NoPieces(reader.Buffered());
    JoinedDone(out, reader.Buffered());
    leftover := reader.len;
    if Steady(Concat(chunks)) { ChunkingIff(Concat(chunks)); }
  }

  /** One more piece at the end. */
  lemma {:induction false} PiecesSnoc(held: Bytes, pieces: seq<Bytes>, b: Bytes)
    ensures ReadPieces(held, pieces + [b]) == Onward(ReadPieces(held, pieces), b)
    decreases |pieces|
  {
    hide Read;
    if pieces == [] {
      assert (pieces + [b])[1..] == [] && (pieces + [b])[0] == b;
      JoinedTwice([], [], Read(held + b));
    } else {
      assert (pieces + [b])[1..] == pieces[1..] + [b] && (pieces + [b])[0] == pieces[0];
      var r := Read(held + pieces[0]);
      if r.Done? {
        PiecesSnoc(r.rest, pieces[1..], b);
        var more := ReadPieces(r.rest, pieces[1..]);
        if more.Done? { JoinedTwice(r.out, more.out, Read(more.rest + b)); }
      }
    }
  }

  lemma NoPieces(held: Bytes)
    ensures ReadPieces(held, []) == Done([], held)
  {
  }

  lemma NextPiece(held: Bytes, pieces: seq<Bytes>, out: seq<Message>)
    requires pieces != [] && Joined(out, ReadPieces(held, pieces)).Done?
    ensures var r := Read(held + pieces[0]); r.Done? && ReadPieces(held, pieces) == Joined(r.out, ReadPieces(r.rest, pieces[1..]))
  {
  }

  // ---- what was sent ---------------------------------------------------------------------------------------------

  /** A big-endian word. */
  function BigEndian(n: nat): (b: Bytes)
    requires n < 0x1_0000_0000
    ensures |b| == 4
  {
    [(n / 0x100_0000) as Byte, (n / 0x1_0000 % 256) as Byte, (n / 0x100 % 256) as Byte, (n % 256) as Byte]
  }

  predicate Sendable(m: Message) { 4 + |m.body| < 0x8000_0000 }

  /** A message as it is sent: the type, the length of itself and the body, the body. */
  function Frame(m: Message): (b: Bytes)
    requires Sendable(m)
    ensures |b| == 5 + |m.body|
  {
    [m.t] + BigEndian(4 + |m.body|) + m.body
  }

  function Frames(msgs: seq<Message>): Bytes
    requires forall i :: 0 <= i < |msgs| ==> Sendable(msgs[i])
  {
    if msgs == [] then [] else Frame(msgs[0]) + Frames(msgs[1..])
  }

  lemma FourBytes(n: nat)
    requires n < 0x1_0000_0000
    ensures n == 0x100_0000 * (n / 0x100_0000) + 0x1_0000 * (n / 0x1_0000 % 256) + 0x100 * (n / 0x100 % 256) + n % 256
  {
    assert n / 0x1_0000 == 0x100 * (n / 0x100_0000) + n / 0x1_0000 % 256;
    assert n / 0x100 == 0x100 * (n / 0x1_0000) + n / 0x100 % 256;
  }

  lemma FrameRead(m: Message, rest: Bytes)
    requires Sendable(m)
    ensures var s := Frame(m) + rest; Complete(s) && Length(s) == 4 + |m.body| && First(s) == m && After(s) == rest
  {
    var s := Frame(m) + rest;
    var n := 4 + |m.body|;
    FourBytes(n);
    assert s[0] == m.t && s[1..5] == BigEndian(n);
    assert Length(s) == n by {
      assert s[1] == BigEndian(n)[0] && s[2] == BigEndian(n)[1] && s[3] == BigEndian(n)[2] && s[4] == BigEndian(n)[3];
    }
    hide Length;
    FirstBytes(s);
    assert s[5..1 + n] == m.body && s[1 + n..] == rest;
  }

  /** What was sent is read, message by message, up to the last one that is complete. */
  lemma {:induction false} FramesRead(msgs: seq<Message>, rest: Bytes)
    requires (forall i :: 0 <= i < |msgs| ==> Sendable(msgs[i])) && !Complete(rest)
    ensures Read(Frames(msgs) + rest) == Done(msgs, rest) && Steady(Frames(msgs) + rest)
    decreases |msgs|
  {
    hide Complete, First, After, Length, Frame;
    if msgs == [] {
      assert Frames(msgs) + rest == rest;
    } else {
      var tail := Frames(msgs[1..]) + rest;
      assert Frames(msgs) + rest == Frame(msgs[0]) + tail;
      FrameRead(msgs[0], tail);
      FramesRead(msgs[1..], rest);
      assert Frame(msgs[0]) + tail != tail by { assert |Frame(msgs[0]) + tail| > |tail|; }
      assert msgs == [msgs[0]] + msgs[1..];
    }
  }

  /** However the bytes are cut on the way. */
  lemma SentIsReceived(msgs: seq<Message>, rest: Bytes, pieces: seq<Bytes>)
    requires (forall i :: 0 <= i < |msgs| ==> Sendable(msgs[i])) && !Complete(rest)
    requires Concat(pieces) == Frames(msgs) + rest
    ensures ReadPieces([], pieces) == Done(msgs, rest)
  {
    FramesRead(msgs, rest);
    hide *;
    ChunkingIff(Concat(pieces));
  }
}
