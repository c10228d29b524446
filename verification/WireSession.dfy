/** A session's message pump and its standard input, with what each of them must conserve. */
module WireSession {
  import opened Common
  import opened Bits
  import opened Wire

  const READY: Byte := 90

  predicate IsReady(m: Message) { m.t == READY }

  /** ReadyForQuery is the message of type Z. */
  lemma ReadyIsZ(m: Message)
    ensures IsReady(m) <==> m.t as int == 'Z' as int
  {
  }

  /** Messages up to and including a ready message. */
  predicate Batch(msgs: seq<Message>) {
    msgs != [] && IsReady(msgs[|msgs| - 1]) && NoneReady(msgs[..|msgs| - 1])
  }

  lemma BatchEnds(msgs: seq<Message>, m: Message)
    requires NoneReady(msgs) && IsReady(m)
    ensures Batch(msgs + [m])
  {
    assert (msgs + [m])[..|msgs|] == msgs;
  }

  predicate NoneReady(msgs: seq<Message>) {
    forall i :: 0 <= i < |msgs| ==> !IsReady(msgs[i])
  }

  /** How a collection ended. */
  datatype Outcome = Delivered(msgs: seq<Message>) | Rejected(msgs: seq<Message>)

  function Settled(outcomes: seq<Outcome>): seq<Message> {
    if outcomes == [] then [] else Settled(outcomes[..|outcomes| - 1]) + outcomes[|outcomes| - 1].msgs
  }

  predicate GoodOutcome(o: Outcome) {
    if o.Delivered? then Batch(o.msgs) else NoneReady(o.msgs)
  }

  lemma SettledSnoc(outcomes: seq<Outcome>, o: Outcome)
    ensures Settled(outcomes + [o]) == Settled(outcomes) + o.msgs
    ensures WellSettled(outcomes) && GoodOutcome(o) ==> WellSettled(outcomes + [o])
  {
    assert (outcomes + [o])[..|outcomes|] == outcomes;
  }

  predicate WellSettled(outcomes: seq<Outcome>) {
    forall i :: 0 <= i < |outcomes| ==> GoodOutcome(outcomes[i])
  }

  predicate AllDelivered(outcomes: seq<Outcome>) {
    forall i :: 0 <= i < |outcomes| ==> outcomes[i].Delivered?
  }

  /** These messages are in the settled collections, the armed collector and the inbox, in this order. */
  ghost predicate Kept(msgs: seq<Message>, outcomes: seq<Outcome>, collector: Option<seq<Message>>, inbox: seq<Message>, dead: bool) {
    && msgs == Settled(outcomes) + (if collector.Some? then collector.value else []) + inbox
    && WellSettled(outcomes)
    && (collector.Some? ==> NoneReady(collector.value) && inbox == [] && !dead)
    && (!dead ==> AllDelivered(outcomes))
  }

  /** A ready message completes the armed collector. */
  lemma KeepReady(msgs: seq<Message>, outcomes: seq<Outcome>, c: seq<Message>, m: Message)
    requires Kept(msgs, outcomes, Some(c), [], false) && IsReady(m)
    ensures Kept(msgs + [m], outcomes + [Delivered(c + [m])], None, [], false)
  {
    hide Settled, WellSettled, Batch, NoneReady;
    BatchEnds(c, m);
    SettledSnoc(outcomes, Delivered(c + [m]));
  }

  lemma KeepMore(msgs: seq<Message>, outcomes: seq<Outcome>, c: seq<Message>, m: Message)
    requires Kept(msgs, outcomes, Some(c), [], false) && !IsReady(m)
    ensures Kept(msgs + [m], outcomes, Some(c + [m]), [], false)
  {
  }

  lemma KeepInbox(msgs: seq<Message>, outcomes: seq<Outcome>, inbox: seq<Message>, dead: bool, m: Message)
    requires Kept(msgs, outcomes, None, inbox, dead)
    ensures Kept(msgs + [m], outcomes, None, inbox + [m], dead)
  {
  }

  /** A batch at the front of the inbox is delivered from there. */
  lemma KeepFront(msgs: seq<Message>, outcomes: seq<Outcome>, front: seq<Message>, m: Message, rest: seq<Message>, dead: bool)
    requires Kept(msgs, outcomes, None, front + [m] + rest, dead) && NoneReady(front) && IsReady(m)
    ensures Kept(msgs, outcomes + [Delivered(front + [m])], None, rest, dead)
  {
    hide Settled, WellSettled, Batch, NoneReady;
    BatchEnds(front, m);
    SettledSnoc(outcomes, Delivered(front + [m]));
  }

  lemma KeepArmed(msgs: seq<Message>, outcomes: seq<Outcome>, inbox: seq<Message>)
    requires Kept(msgs, outcomes, None, inbox, false) && NoneReady(inbox)
    ensures Kept(msgs, outcomes, Some(inbox), [], false)
  {
  }

  lemma KeepRejected(msgs: seq<Message>, outcomes: seq<Outcome>, held: seq<Message>)
    requires Kept(msgs, outcomes, None, held, true) || Kept(msgs, outcomes, Some(held), [], false)
    requires NoneReady(held)
    ensures Kept(msgs, outcomes + [Rejected(held)], None, [], true)
  {
    hide Settled, WellSettled, Batch, NoneReady;
    SettledSnoc(outcomes, Rejected(held));
  }

  lemma KeepDead(msgs: seq<Message>, outcomes: seq<Outcome>, inbox: seq<Message>, dead: bool)
    requires Kept(msgs, outcomes, None, inbox, dead)
    ensures Kept(msgs, outcomes, None, inbox, true)
  {
  }

  lemma ArmedMeans(msgs: seq<Message>, outcomes: seq<Outcome>, c: seq<Message>, inbox: seq<Message>, dead: bool)
    requires Kept(msgs, outcomes, Some(c), inbox, dead)
    ensures NoneReady(c) && inbox == [] && !dead
  {
  }

  class Pump {
    const reader: WireReader
    var inbox: seq<Message>
    var collector: Option<seq<Message>>
    var dead: bool
    ghost var outcomes: seq<Outcome>
    ghost var pieces: seq<Bytes>

    /** What has been read off the pieces received so far. */
    ghost function Arrived(): seq<Message>
      reads this
    {
      ReadPieces([], pieces).out
    }

    /** Every message received is kept. */
    ghost predicate Valid()
      reads this, reader
    {
      && reader.Valid() && ReadPieces([], pieces) == Done(Arrived(), reader.Buffered())
      && Kept(Arrived(), outcomes, collector, inbox, dead)
    }

    constructor ()
      ensures Valid() && fresh(reader) && !dead && collector.None? && inbox == [] && outcomes == [] && pieces == []
    {
      reader := new WireReader();
      inbox, collector, dead := [], None, false;
      outcomes, pieces := [], [];
    }

    /** One message arrives: into the collector, which a ready message completes, or the inbox. */
    method Deliver(m: Message, ghost before: seq<Message>)
      requires Kept(before, outcomes, collector, inbox, dead)
      modifies this`inbox, this`collector, this`outcomes
      ensures Kept(before + [m], outcomes, collector, inbox, dead)
      ensures old(collector).None? ==> collector.None? && outcomes == old(outcomes)
    {
      hide Kept;
      if collector.Some? {
        ArmedMeans(before, outcomes, collector.value, inbox, dead);
        var msgs := collector.value + [m];
        if IsReady(m) {
          KeepReady(before, outcomes, collector.value, m);
          collector := None;
          outcomes := outcomes + [Delivered(msgs)];
        } else {
          KeepMore(before, outcomes, collector.value, m);
          collector := Some(msgs);
        }
      } else {
        KeepInbox(before, outcomes, inbox, dead, m);
        inbox := inbox + [m];
      }
    }

    /** Output bytes arrive; the loop ends exactly when no message in the buffer is read for ever. */
    method OnStdout(bytes: Bytes)
      requires Valid() && Read(reader.Buffered() + bytes).Done?
      modifies this`inbox, this`collector, this`outcomes, this`pieces, reader
      ensures Valid() && pieces == old(pieces) + [bytes]
      ensures Arrived() == old(Arrived()) + Read(old(reader.Buffered()) + bytes).out
      ensures Steady(Concat(pieces)) ==> Arrived() == Read(Concat(pieces)).out
      ensures old(collector).None? ==> collector.None? && outcomes == old(outcomes)
    {
      hide Complete, Read, ReadPieces, Steady, Concat, Joined, First, After, Kept;
      PiecesSnoc([], pieces, bytes);
      ghost var done := Arrived();
      reader.Feed(bytes);
      ghost var left := reader.Buffered();
      pieces := pieces + [bytes];
      JoinedTwice(done, [], Read(left));
      JoinedOut(done, Read(left));
      assert done + [] == done;
      var m := reader.Next();
      while m.Some?
        invariant reader.Valid() && pieces == old(pieces) + [bytes] && Read(left).Done?
        invariant m.None? ==> !Complete(left) && reader.Buffered() == left
        invariant m.Some? ==> Complete(left) && m.value == First(left) && reader.Buffered() == After(left)
        invariant Kept(done, outcomes, collector, inbox, dead)
        invariant ReadPieces([], pieces) == Joined(done, Read(left))
        invariant old(collector).None? ==> collector.None? && outcomes == old(outcomes)
        decreases |left|
      {
        NotStuck(left);
        JoinedTwice(done, [m.value], Read(After(left)));
        Deliver(m.value, done);
        done := done + [m.value];
        left := After(left);
        m := reader.Next();
      }
      Incomplete(left);
      JoinedDone(done, left);
      if Steady(Concat(pieces)) { ChunkingIff(Concat(pieces)); }
    }

    /** Ask for everything up to the next ready message; None means the collector waits for it. */
    method CollectUntilReady() returns (r: Option<Outcome>)
      requires Valid() && collector.None?
      modifies this`inbox, this`collector, this`outcomes
      ensures Valid() && pieces == old(pieces)
      ensures r.None? ==> !dead && collector.Some? && outcomes == old(outcomes)
      ensures r.Some? ==> collector.None? && outcomes == old(outcomes) + [r.value]
      ensures r.Some? && r.value.Rejected? ==> dead
    {
      hide ReadPieces, Kept;
      ghost var arrived := Arrived();
      var msgs: seq<Message> := [];
      assert msgs + inbox == inbox;
      while inbox != []
        invariant Kept(arrived, outcomes, None, msgs + inbox, dead) && NoneReady(msgs)
        invariant collector.None? && outcomes == old(outcomes)
        decreases |inbox|
      {
        var m := inbox[0];
        assert msgs + inbox == msgs + [m] + inbox[1..];
        inbox := inbox[1..];
        if IsReady(m) {
          KeepFront(arrived, outcomes, msgs, m, inbox, dead);
          msgs := msgs + [m];
          outcomes := outcomes + [Delivered(msgs)];
          return Some(Delivered(msgs));
        }
        msgs := msgs + [m];
      }
      assert msgs + inbox == msgs;
      if dead {
        KeepRejected(arrived, outcomes, msgs);
        outcomes := outcomes + [Rejected(msgs)];
        return Some(Rejected(msgs));
      }
      KeepArmed(arrived, outcomes, msgs);
      collector := Some(msgs);
      return None;
    }

    /** The guest is gone; a waiting collection is rejected. */
    method Fail()
      requires Valid()
      modifies this`collector, this`dead, this`outcomes
      ensures Valid() && dead && pieces == old(pieces)
      ensures outcomes == if old(collector).Some? then old(outcomes) + [Rejected(old(collector).value)] else old(outcomes)
    {
      hide ReadPieces, Kept;
      ghost var arrived := Arrived();
      if collector.Some? {
        ArmedMeans(arrived, outcomes, collector.value, inbox, dead);
        KeepRejected(arrived, outcomes, collector.value);
        outcomes := outcomes + [Rejected(collector.value)];
        collector := None;
      } else {
        KeepDead(arrived, outcomes, inbox, dead);
      }
      dead := true;
    }
  }

  // ---- standard input -----------------------------------------------------------------------------------------

  /** Taking bytes from the front of a chunk leaves the rest of it and what follows. */
  lemma FrontTaken(head: Bytes, rest: Bytes, from: nat, k: nat)
    requires from + k <= |head|
    ensures (head + rest)[from..] == head[from..from + k] + (head + rest)[from + k..]
    ensures from + k == |head| ==> (head + rest)[from + k..] == rest
  {
  }

  /** What was taken and what is queued stay what was pushed. */
  lemma TakenMore(taken: Bytes, head: Bytes, rest: Bytes, from: nat, k: nat, pushed: Bytes)
    requires from + k <= |head| && taken + (head + rest)[from..] == pushed
    ensures taken + head[from..from + k] + (head + rest)[from + k..] == pushed
    ensures from + k == |head| ==> taken + head[from..from + k] + rest == pushed
  {
    FrontTaken(head, rest, from, k);
  }

  /** No empty chunks, and the position inside the first of them. */
  predicate Tidy(q: seq<Bytes>, qPos: nat) {
    && (forall i :: 0 <= i < |q| ==> q[i] != [])
    && (if q == [] then qPos == 0 else qPos < |q[0]|)
  }

  lemma TidyRest(q: seq<Bytes>, qPos: nat, k: nat)
    requires Tidy(q, qPos) && q != [] && qPos + k <= |q[0]|
    ensures qPos < |q[0]| <= |Concat(q)| && Tidy(q[1..], 0) && (qPos + k < |q[0]| ==> Tidy(q, qPos + k))
  {
    hide Concat;
    ConcatCons(q);
  }

  lemma TidySnoc(q: seq<Bytes>, qPos: nat, bytes: Bytes)
    requires Tidy(q, qPos) && bytes != []
    ensures Tidy(q + [bytes], qPos)
  {
  }

  lemma TidyInside(q: seq<Bytes>, qPos: nat)
    requires Tidy(q, qPos)
    ensures qPos <= |Concat(q)| && (if q == [] then qPos == 0 else qPos < |q[0]|)
  {
    if q != [] { TidyRest(q, qPos, 0); }
  }

  class Stdin {
    var q: seq<Bytes>
    var qPos: nat
    ghost var pushed: Bytes
    ghost var taken: Bytes

    ghost predicate Valid()
      reads this
    {
      Tidy(q, qPos) && qPos <= |Concat(q)| && taken + Concat(q)[qPos..] == pushed
    }

    constructor ()
      ensures Valid() && pushed == [] && taken == []
    {
      q, qPos, pushed, taken := [], 0, [], [];
    }

    method Push(bytes: Bytes)
      requires Valid()
      modifies this
      ensures Valid() && pushed == old(pushed) + bytes && taken == old(taken)
    {
      if |bytes| > 0 {
        ConcatSnoc(q, bytes);
        TidySnoc(q, qPos, bytes);
        q := q + [bytes];
        pushed := pushed + bytes;
      } else {
        assert pushed + bytes == pushed;
      }
    }

    /** At most maxLen bytes of the first chunk. */
    method Take(maxLen: nat) returns (chunk: Option<Bytes>)
      requires Valid()
      modifies this
      ensures Valid() && pushed == old(pushed)
      ensures chunk.None? <==> old(taken) == old(pushed)
      ensures chunk.None? ==> taken == old(taken)
      ensures chunk.Some? ==> taken == old(taken) + chunk.value && |chunk.value| <= maxLen
      ensures chunk.Some? && maxLen > 0 ==> chunk.value != []
    {
      hide Concat, Tidy;
      ConcatNone();
      TidyInside(q, qPos);
      if q == [] {
        return None;
      }
      var head := q[0];
      ConcatCons(q);
      TidyRest(q, qPos, 0);
      assert |pushed| > |taken|;
      var avail := |head| - qPos;
      var k := if maxLen < avail then maxLen else avail;
      var bytes := head[qPos..qPos + k];
      TakenMore(taken, head, Concat(q[1..]), qPos, k, pushed);
      TidyRest(q, qPos, k);
      taken := taken + bytes;
      qPos := qPos + k;
      if qPos >= |head| {
        q, qPos := q[1..], 0;
      }
      return Some(bytes);
    }
  }
}
