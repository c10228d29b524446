/** The worker's persistence handlers over the two slots, each proved against a sequence of `SnapshotSlots` steps. */
module SnapshotWorker {
  import opened Common
  import opened SnapshotSlots

  lemma RunTwo(s: State, e1: Event, e2: Event)
    ensures Run(s, [e1, e2]) == Step(Step(s, e1), e2)
  {
    assert [e1, e2][..1] == [e1];
    assert Run(s, [e1]) == Step(s, e1) by { assert [e1][..0] == []; }
  }

  lemma RunThree(s: State, e1: Event, e2: Event, e3: Event)
    ensures Run(s, [e1, e2, e3]) == Step(Step(Step(s, e1), e2), e3)
  {
    assert [e1, e2, e3][..2] == [e1, e2];
    RunTwo(s, e1, e2);
  }

  class Worker {
    // the store
    var a: Slot
    var b: Slot
    // the page
    var alive: bool
    var persist: bool
    var snapGen: nat
    var snapSlot: Option<Which>
    var image: Image
    // history
    ghost var lastDone: Option<nat>
    var clock: nat

    ghost function View(): State
      reads this
    {
      State(a, b, alive, persist, snapGen, snapSlot, image, lastDone, clock)
    }

    constructor ()
      ensures View() == INITIAL
    {
      a, b := Absent, Absent;
      alive, persist, snapGen, snapSlot, image := false, false, 0, None, PRISTINE;
      lastDone, clock := None, 0;
    }

    method Read(w: Which) returns (v: Slot)
      ensures v == Get(View(), w)
    {
      v := if w == A then a else b;
    }

    /** Best valid snapshot across the slots, in slot order; corrupt and absent slots are skipped. */
    method LoadLatest() returns (best: Option<Which>)
      ensures best == Load(a, b)
    {
      best := None;
      var bestGen := 0;
      var slots := [A, B];
      for i := 0 to 2
        invariant i == 0 ==> best == None
        invariant i == 1 ==> best == if a.Whole? then Some(A) else None
        invariant i == 2 ==> best == Load(a, b)
        invariant best.Some? ==> Get(View(), best.value).Whole? && bestGen == Get(View(), best.value).gen
      {
        var v := Read(slots[i]);
        if v.Whole? {
          if best.None? || v.gen > bestGen {
            best, bestGen := Some(slots[i]), v.gen;
          }
        }
      }
    }

    /** Page load: restore the newest valid snapshot, or boot pristine. */
    method Boot()
      modifies this
      ensures View() == Step(old(View()), Reload)
    {
      var best := LoadLatest();
      alive := true;
      if best.None? {
        persist, snapGen, snapSlot, image := false, 0, None, PRISTINE;
      } else {
        var v := Read(best.value);
        persist, snapGen, snapSlot, image := true, v.gen, best, v.image;
      }
    }

    /** Write to the slot that does not hold the current snapshot; the write may be cut. */
    method WriteSlot(cut: Cut) returns (gen: nat, target: Which)
      modifies this`a, this`b
      ensures gen == NextGen(snapGen) && target == Target(snapSlot)
      ensures View() == AfterCut(old(View()), cut)
    {
      gen := snapGen % TWO32 + 1;
      target := if snapSlot == Some(A) then B else A;
      var bytes := Whole(gen % TWO32, clock, image);
      if cut.Landed? {
        if target == A { a := bytes; } else { b := bytes; }
      } else if cut.Torn? {
        if target == A { a := Corrupt; } else { b := Corrupt; }
      }
    }

    /** Save if persistence is on; a failed save switches persistence off and keeps the counters. */
    method SnapshotNow(out: SaveOutcome)
      modifies this
      ensures View() == Step(old(View()), Save(out))
    {
      if !alive || !persist {
        return;
      }
      match out {
      case Completes =>
        var gen, target := WriteSlot(Landed);
        snapGen, snapSlot, lastDone := gen, Some(target), Some(clock);
      case Fails(cut) =>
        var _, _ := WriteSlot(cut);
        persist := false;
      case Dies(cut) =>
        var _, _ := WriteSlot(cut);
        alive := false;
      }
      clock := clock + 1;
    }

    /** Remove both slots, best effort: a removal may fail silently, and the page may die over it. */
    method ClearSnapshots(e: Event)
      requires alive && e.Clear?
      modifies this
      ensures View() == Step(old(View()), e)
    {
      var slots := [A, B];
      for i := 0 to 2
        invariant View() == old(View()).(a := if i > 0 && e.goneA then Absent else old(a), b := if i > 1 && e.goneB then Absent else old(b))
      {
        if Gone(e, slots[i]) {
          if slots[i] == A { a := Absent; } else { b := Absent; }
        }
      }
      lastDone := None;
      if e.dies {
        alive := false;
      } else {
        snapGen, snapSlot := 0, None;
      }
    }

    /** Reset: pristine database; with persistence on, wipe the slots and snapshot the fresh state. */
    method HandleReset(e: Event, out: SaveOutcome)
      requires alive && e.Clear?
      modifies this
      ensures View() == if old(persist) then Run(old(View()), [Edit(PRISTINE), e, Save(out)])
                        else Step(old(View()), Edit(PRISTINE))
    {
      ghost var s := View();
      RunThree(s, Edit(PRISTINE), e, Save(out));
      image := PRISTINE;
      if persist {
        ClearSnapshots(e);
        SnapshotNow(out);
      }
    }

    /** The persistence toggle: on saves at once, off forgets everything stored. */
    method HandlePersist(on: bool, e: Event, out: SaveOutcome)
      requires alive && e.Clear?
      modifies this
      ensures View() == Run(old(View()), if on then [Enable, Save(out)] else [Disable, e])
    {
      ghost var s := View();
      RunTwo(s, Enable, Save(out));
      RunTwo(s, Disable, e);
      if on {
        persist := true;
        SnapshotNow(out);
      } else {
        persist := false;
        ClearSnapshots(e);
      }
    }
  }
}
