/**
  Two-slot snapshots without rename: saves alternate between two slots under growing generations, a save may be cut at
  any point, and the loader takes the highest generation that validates.
 */
module SnapshotSlots {
  import opened Common

  type Image = seq<bv8>

  const TWO32 := 0x1_0000_0000

  datatype Which = A | B

  function Other(w: Which): Which {
    if w == A then B else A
  }

  /** What the loader makes of a slot: nothing there, something that does not validate, or a snapshot.
      `stamp` numbers the save attempts; the program does not see it. */
  datatype Slot = Absent | Corrupt | Whole(gen: nat, stamp: nat, image: Image)

  /** How far an interrupted write got. */
  datatype Cut = Untouched | Torn | Landed

  datatype SaveOutcome = Completes | Fails(cut: Cut) | Dies(cut: Cut)

  datatype Event =
    | Reload              // page load: read the slots, restore the newest valid snapshot
    | Edit(image: Image)  // statements change the database
    | Enable
    | Disable
    | Save(out: SaveOutcome)
    | Clear(goneA: bool, goneB: bool, dies: bool)  // which slots are removed; counters reset unless the page dies over it
    | Close               // the page goes away

  /** The two slots, the worker's variables, and the stamp of the last save reported complete since a clear was
      last begun. */
  datatype State = State(
    a: Slot, b: Slot,
    alive: bool, persist: bool, gen: nat, slot: Option<Which>, image: Image,
    lastDone: Option<nat>, clock: nat)

  const PRISTINE: Image := []

  const INITIAL := State(Absent, Absent, false, false, 0, None, PRISTINE, None, 0)

  function Get(s: State, w: Which): Slot {
    if w == A then s.a else s.b
  }

  function Put(s: State, w: Which, v: Slot): State {
    if w == A then s.(a := v) else s.(b := v)
  }

  /** The loader: slot a first, slot b only with a strictly higher generation. */
  function Load(a: Slot, b: Slot): Option<Which> {
    if a.Whole? && b.Whole? then Some(if b.gen > a.gen then B else A)
    else if a.Whole? then Some(A)
    else if b.Whole? then Some(B)
    else None
  }

  /** A save goes to the slot that does not hold the current snapshot. */
  function Target(slot: Option<Which>): Which {
    if slot == Some(A) then B else A
  }

  function NextGen(gen: nat): nat {
    gen % TWO32 + 1
  }

  /** The snapshot a save writes; the generation field is 32 bits wide. */
  function Written(s: State): Slot {
    Whole(NextGen(s.gen) % TWO32, s.clock, s.image)
  }

  function AfterCut(s: State, cut: Cut): State {
    match cut
    case Untouched => s
    case Torn => Put(s, Target(s.slot), Corrupt)
    case Landed => Put(s, Target(s.slot), Written(s))
  }

  function Step(s: State, e: Event): State {
    match e
    case Reload =>
      var best := Load(s.a, s.b);
      if best.Some? then
        s.(alive := true, persist := true, gen := Get(s, best.value).gen, slot := best, image := Get(s, best.value).image)
      else s.(alive := true, persist := false, gen := 0, slot := None, image := PRISTINE)
    case Edit(image) => if s.alive then s.(image := image) else s
    case Enable => if s.alive then s.(persist := true) else s
    case Disable => if s.alive then s.(persist := false) else s
    case Save(out) =>
      if !s.alive || !s.persist then s
      else
        (match out
         case Completes =>
           Put(s, Target(s.slot), Written(s))
           .(gen := NextGen(s.gen), slot := Some(Target(s.slot)), lastDone := Some(s.clock), clock := s.clock + 1)
         case Fails(cut) => AfterCut(s, cut).(persist := false, clock := s.clock + 1)
         case Dies(cut) => AfterCut(s, cut).(alive := false, clock := s.clock + 1))
    case Clear(goneA, goneB, dies) =>
      if !s.alive then s
      else
        var left := s.(a := if goneA then Absent else s.a, b := if goneB then Absent else s.b, lastDone := None);
        if dies then left.(alive := false) else left.(gen := 0, slot := None)
    case Close => s.(alive := false)
  }

  function Run(s: State, es: seq<Event>): State
    decreases |es|
  {
    if es == [] then s else Step(Run(s, es[..|es| - 1]), es[|es| - 1])
  }

  // ---- the invariant ---------------------------------------------------------------------------

  /** Generations follow the order in which the saves were attempted. */
  predicate OrderedSlots(a: Slot, b: Slot, clock: nat) {
    && (a.Whole? ==> a.stamp < clock)
    && (b.Whole? ==> b.stamp < clock)
    && (a.Whole? && b.Whole? ==> a.gen != b.gen && a.stamp != b.stamp && (a.gen < b.gen <==> a.stamp < b.stamp))
  }

  /** The loader's pick is at least as new as the last completed save. */
  predicate LoaderCurrent(s: State) {
    s.lastDone.Some? ==>
      Load(s.a, s.b).Some? && Get(s, Load(s.a, s.b).value).stamp >= s.lastDone.value
  }

  /** While the page lives: its slot holds the snapshot it counts from, and the other slot holds at most an older one or
      the remains of an attempt at the next one. */
  predicate WorkerKnows(s: State) {
    if s.slot.None? then
      s.gen == 0 && s.lastDone.None? && !s.b.Whole?
    else
      var mine, other := Get(s, s.slot.value), Get(s, Other(s.slot.value));
      && mine.Whole? && mine.gen == s.gen
      && (s.lastDone.Some? ==> s.lastDone.value <= mine.stamp)
      && (other.Whole? ==> other.gen < s.gen || other.gen == s.gen + 1)
  }

  predicate Inv(s: State) {
    && OrderedSlots(s.a, s.b, s.clock)
    && (s.lastDone.Some? ==> s.lastDone.value < s.clock)
    && LoaderCurrent(s)
    && (s.alive ==> WorkerKnows(s))
  }

  /** A removal of slot b that fails silently on a page that lives on, while there is a snapshot in it. */
  predicate Survives(s: State, e: Event) {
    e.Clear? && s.alive && !e.dies && !e.goneB && s.b.Whole?
  }

  /** No such removal in the run. */
  predicate NoSurvivor(s: State, es: seq<Event>) {
    forall n :: 0 <= n < |es| ==> !Survives(Run(s, es[..n]), es[n])
  }

  /** No save is attempted once the generation field is exhausted. */
  predicate GenerationsLast(s: State, es: seq<Event>) {
    forall n :: 0 <= n < |es| && es[n].Save? ==> Run(s, es[..n]).gen < TWO32 - 1
  }

  lemma NextGenBelow(s: State)
    requires s.gen < TWO32 - 1
    ensures NextGen(s.gen) == s.gen + 1
    ensures Written(s) == Whole(s.gen + 1, s.clock, s.image)
  {
  }

  lemma CompletedKeepsInv(s: State)
    requires Inv(s) && s.alive && s.persist && s.gen < TWO32 - 1
    ensures Inv(Step(s, Save(Completes)))
  {
    NextGenBelow(s);
  }

  lemma CutKeepsInv(s: State, cut: Cut)
    requires Inv(s) && s.alive && s.gen < TWO32 - 1
    ensures
      var s' := AfterCut(s, cut).(clock := s.clock + 1);
      Inv(s'.(persist := false)) && Inv(s'.(alive := false))
  {
    hide Inv;
    match cut
    case Untouched => TickKeepsInv(s);
    case Torn => TornKeepsInv(s);
    case Landed => LandedKeepsInv(s);
  }

  lemma TickKeepsInv(s: State)
    requires Inv(s)
    ensures var s' := s.(clock := s.clock + 1); Inv(s'.(persist := false)) && Inv(s'.(alive := false))
  {
  }

  lemma TornKeepsInv(s: State)
    requires Inv(s) && s.alive
    ensures
      var s' := Put(s, Target(s.slot), Corrupt).(clock := s.clock + 1);
      Inv(s'.(persist := false)) && Inv(s'.(alive := false))
  {
  }

  lemma LandedKeepsInv(s: State)
    requires Inv(s) && s.alive && s.gen < TWO32 - 1
    ensures
      var s' := AfterCut(s, Landed).(clock := s.clock + 1);
      Inv(s'.(persist := false)) && Inv(s'.(alive := false))
  {
    NextGenBelow(s);
    hide NextGen;
  }

  lemma SaveKeepsInv(s: State, out: SaveOutcome)
    requires Inv(s) && s.alive && s.persist && s.gen < TWO32 - 1
    ensures Inv(Step(s, Save(out)))
  {
    hide Inv, AfterCut;
    match out
    case Completes => CompletedKeepsInv(s);
    case Fails(cut) => CutKeepsInv(s, cut);
    case Dies(cut) => CutKeepsInv(s, cut);
  }

  /** Clears that complete, are cut anywhere or fail to remove slot a are harmless; exactly the survivor in slot b is not. */
  lemma ClearKeepsInvIff(s: State, e: Event)
    requires Inv(s) && e.Clear?
    ensures Inv(Step(s, e)) <==> !Survives(s, e)
  {
  }

  lemma OthersKeepInv(s: State, e: Event)
    requires Inv(s) && !e.Save? && !e.Clear?
    ensures Inv(Step(s, e))
  {
  }

  lemma StepKeepsInv(s: State, e: Event)
    requires Inv(s) && !Survives(s, e)
    requires e.Save? ==> s.gen < TWO32 - 1
    ensures Inv(Step(s, e))
  {
    hide Inv, AfterCut, Survives;
    if e.Save? {
      if s.alive && s.persist { SaveKeepsInv(s, e.out); }
    } else if e.Clear? {
      ClearKeepsInvIff(s, e);
    } else {
      OthersKeepInv(s, e);
    }
  }

  lemma PrefixLasts(es: seq<Event>, n: nat)
    requires n <= |es| && GenerationsLast(INITIAL, es) && NoSurvivor(INITIAL, es)
    ensures GenerationsLast(INITIAL, es[..n]) && NoSurvivor(INITIAL, es[..n])
  {
    forall m | 0 <= m < n
      ensures !Survives(Run(INITIAL, es[..n][..m]), es[..n][m])
    {
      assert es[..n][..m] == es[..m];
    }
    forall m | 0 <= m < n && es[..n][m].Save?
      ensures Run(INITIAL, es[..n][..m]).gen < TWO32 - 1
    {
      assert es[..n][..m] == es[..m];
      assert es[m].Save?;
    }
  }

  lemma {:induction false} RunKeepsInv(es: seq<Event>)
    requires GenerationsLast(INITIAL, es) && NoSurvivor(INITIAL, es)
    ensures Inv(Run(INITIAL, es))
    decreases |es|
  {
    if es != [] {
      var n := |es| - 1;
      PrefixLasts(es, n);
      RunKeepsInv(es[..n]);
      StepKeepsInv(Run(INITIAL, es[..n]), es[n]);
    }
  }

  /** Over every run, saves and clears cut at any point included: the loader never returns anything older than the last
      save completed since a clear was begun, two valid slots never carry one generation, and the loader's pick is the
      newest whole snapshot there is. */
  lemma NeverLosesACompletedSave(es: seq<Event>)
    requires GenerationsLast(INITIAL, es) && NoSurvivor(INITIAL, es)
    ensures
      var s := Run(INITIAL, es);
      && (s.lastDone.Some? ==> Load(s.a, s.b).Some? && Get(s, Load(s.a, s.b).value).stamp >= s.lastDone.value)
      && (s.a.Whole? && s.b.Whole? ==> s.a.gen != s.b.gen)
      && (forall w :: Get(s, w).Whole? ==>
            Load(s.a, s.b).Some? && Get(s, w).stamp <= Get(s, Load(s.a, s.b).value).stamp)
  {
    RunKeepsInv(es);
  }

  /** Over every run: a save never targets the slot its own page loaded or last completed, and that slot holds a snapshot
      at least as new as the last completed save; once the save completes, a reload restores exactly its image. */
  lemma SaveSparesTheCurrentSlot(es: seq<Event>)
    requires GenerationsLast(INITIAL, es + [Save(Completes)]) && NoSurvivor(INITIAL, es + [Save(Completes)])
    requires Run(INITIAL, es).alive && Run(INITIAL, es).persist
    ensures
      var s := Run(INITIAL, es);
      && (s.slot.Some? ==>
            && Target(s.slot) != s.slot.value
            && Get(s, s.slot.value).Whole?
            && (s.lastDone.Some? ==> Get(s, s.slot.value).stamp >= s.lastDone.value))
      && (s.lastDone.Some? ==> s.slot.Some?)
    ensures
      var s := Run(INITIAL, es);
      var saved := Step(s, Save(Completes));
      Step(saved, Reload).image == s.image && Step(Step(saved, Close), Reload).image == s.image
  {
    var whole := es + [Save(Completes)];
    PrefixLasts(whole, |es|);
    assert whole[..|es|] == es;
    RunKeepsInv(es);
    assert whole[|es|].Save?;
    CompletedRestores(Run(INITIAL, es));
  }

  lemma CompletedRestores(s: State)
    requires Inv(s) && s.alive && s.persist && s.gen < TWO32 - 1
    ensures
      var saved := Step(s, Save(Completes));
      Step(saved, Reload).image == s.image && Step(Step(saved, Close), Reload).image == s.image
  {
    NextGenBelow(s);
  }

  // ---- where the guarantee ends ---------------------------------------------------------------------

  /** The generation field wraps: a save completed from a page that counts from its own slot is what a reload restores
      exactly when the previous generation was not the last 32-bit one. */
  lemma CompletedSaveLoadsUnlessWrapped(s: State)
    requires Inv(s) && s.alive && s.persist && s.slot.Some? && s.gen < TWO32
    ensures
      var saved := Step(s, Save(Completes));
      (Load(saved.a, saved.b) == saved.slot) <==> s.gen != TWO32 - 1
  {
  }

  function Gone(e: Event, w: Which): bool
    requires e.Clear?
  {
    if w == A then e.goneA else e.goneB
  }

  /** A page that dies over a clear leaves an older snapshot to be loaded exactly when the newest was removed and the other
      slot still holds one. */
  lemma InterruptedClearExposesOlder(s: State, e: Event)
    requires Inv(s) && s.alive && e.Clear? && e.dies && Load(s.a, s.b).Some?
    ensures
      var cut, newest := Step(s, e), Load(s.a, s.b).value;
      && (Load(cut.a, cut.b).Some? && Get(cut, Load(cut.a, cut.b).value).stamp < Get(s, newest).stamp
          <==> Gone(e, newest) && !Gone(e, Other(newest)) && Get(s, Other(newest)).Whole?)
  {
  }

  /** After a clear on a page that lives on, the next completed save is what a reload restores exactly when nothing above
      generation 1 survived in slot b. */
  lemma FailedRemovalShadowsNextSave(s: State, e: Event)
    requires s.alive && s.persist && e.Clear? && !e.dies
    ensures
      var saved := Step(Step(s, e), Save(Completes));
      (Load(saved.a, saved.b) == saved.slot) <==> !(!e.goneB && s.b.Whole? && s.b.gen > 1)
  {
  }

  // ---- runs on which it does end ----------------------------------------------------------------------

  lemma RunSnoc(s: State, es: seq<Event>, e: Event)
    ensures Run(s, es + [e]) == Step(Run(s, es), e)
  {
    assert (es + [e])[..|es|] == es;
  }

  /** A page opened with nothing stored, then that many completed saves. */
  function Saves(n: nat): seq<Event> {
    if n == 0 then [Reload, Enable] else Saves(n - 1) + [Save(Completes)]
  }

  lemma NoSavesYet()
    ensures Run(INITIAL, Saves(0)) == INITIAL.(alive := true, persist := true)
  {
    RunSnoc(INITIAL, [], Reload);
    RunSnoc(INITIAL, [Reload], Enable);
    assert [] + [Reload] == [Reload] && [Reload] + [Enable] == Saves(0);
  }

  /** The current snapshot of the page, which then is the newest one. */
  predicate Saved(s: State, n: nat) {
    && s.alive && s.persist && s.gen == n && s.image == PRISTINE && Inv(s)
    && (n > 0 ==> s.slot.Some? && Get(s, s.slot.value).image == PRISTINE)
  }

  lemma SavedOnce(s: State, n: nat)
    requires n < TWO32 - 1 && Saved(s, n)
    ensures Saved(Step(s, Save(Completes)), n + 1)
  {
    CompletedKeepsInv(s);
    NextGenBelow(s);
    hide Inv;
  }

  /** Every generation up to the last one of 32 bits is reached, one completed save at a time. */
  lemma {:induction false} SavesReach(n: nat)
    requires n < TWO32
    ensures Saved(Run(INITIAL, Saves(n)), n)
    decreases n
  {
    if n == 0 {
      NoSavesYet();
    } else {
      SavesReach(n - 1);
      RunSnoc(INITIAL, Saves(n - 1), Save(Completes));
      SavedOnce(Run(INITIAL, Saves(n - 1)), n - 1);
    }
  }

  /** After 2^32 - 1 saves, one more edit and one more completed save: a reload shows the old image. */
  lemma WrapLosesASave(image: Image)
    requires image != PRISTINE
    ensures Run(INITIAL, Saves(TWO32 - 1) + [Edit(image)] + [Save(Completes)] + [Reload]).image != image
  {
    var es := Saves(TWO32 - 1);
    SavesReach(TWO32 - 1);
    RunSnoc(INITIAL, es, Edit(image));
    RunSnoc(INITIAL, es + [Edit(image)], Save(Completes));
    RunSnoc(INITIAL, es + [Edit(image)] + [Save(Completes)], Reload);
    WrappedReload(Run(INITIAL, es), image);
  }

  lemma WrappedReload(s: State, image: Image)
    requires Saved(s, TWO32 - 1)
    ensures Step(Step(Step(s, Edit(image)), Save(Completes)), Reload).image == PRISTINE
  {
  }

  /** A save of the empty database, one of an image, and one of another. */
  function TwoImages(x: Image): seq<Event> { Saves(0) + [Save(Completes)] + [Edit(x)] + [Save(Completes)] }

  function ThreeImages(x: Image, y: Image): seq<Event> { TwoImages(x) + [Edit(y)] + [Save(Completes)] }

  lemma TwoImagesRun(x: Image)
    ensures Run(INITIAL, TwoImages(x))
            == State(Whole(1, 0, PRISTINE), Whole(2, 1, x), true, true, 2, Some(B), x, Some(1), 2)
  {
    hide Run;
    NoSavesYet();
    RunSnoc(INITIAL, Saves(0), Save(Completes));
    RunSnoc(INITIAL, Saves(0) + [Save(Completes)], Edit(x));
    RunSnoc(INITIAL, Saves(0) + [Save(Completes)] + [Edit(x)], Save(Completes));
  }

  lemma ThreeImagesRun(x: Image, y: Image)
    ensures Run(INITIAL, ThreeImages(x, y)) == State(Whole(3, 2, y), Whole(2, 1, x), true, true, 3, Some(A), y, Some(2), 3)
  {
    hide Run, TwoImages;
    TwoImagesRun(x);
    RunSnoc(INITIAL, TwoImages(x), Edit(y));
    RunSnoc(INITIAL, TwoImages(x) + [Edit(y)], Save(Completes));
  }

  /** The page dies between the two removals of a clear: the next page shows the image of the save before the last. */
  lemma CutClearShowsOldImage(x: Image, y: Image)
    ensures Run(INITIAL, ThreeImages(x, y)).lastDone == Some(2)
    ensures Run(INITIAL, ThreeImages(x, y) + [Clear(true, false, true)] + [Reload]).image == x
  {
    hide Run, ThreeImages;
    ThreeImagesRun(x, y);
    RunSnoc(INITIAL, ThreeImages(x, y), Clear(true, false, true));
    RunSnoc(INITIAL, ThreeImages(x, y) + [Clear(true, false, true)], Reload);
  }

  /** The removal of slot b fails silently while the counters are reset: the next completed save is not what a reload
      shows. */
  lemma SurvivorShadowsSave(x: Image, y: Image, z: Image)
    ensures Run(INITIAL, ThreeImages(x, y) + [Clear(true, false, false)] + [Edit(z)] + [Save(Completes)] + [Reload]).image == x
  {
    hide Run, ThreeImages;
    ThreeImagesRun(x, y);
    var es := ThreeImages(x, y) + [Clear(true, false, false)];
    RunSnoc(INITIAL, ThreeImages(x, y), Clear(true, false, false));
    RunSnoc(INITIAL, es, Edit(z));
    RunSnoc(INITIAL, es + [Edit(z)], Save(Completes));
    RunSnoc(INITIAL, es + [Edit(z)] + [Save(Completes)], Reload);
  }

  // ---- the loader, and persistence on and off -----------------------------------------------------------------------

  /** The loader finds nothing only if no slot validates; it picks the highest generation, slot a among equals. */
  lemma LoadMeaning(a: Slot, b: Slot)
    ensures Load(a, b).None? <==> !a.Whole? && !b.Whole?
    ensures Load(a, b) == Some(A) <==> a.Whole? && (b.Whole? ==> a.gen >= b.gen)
    ensures Load(a, b) == Some(B) <==> b.Whole? && (a.Whole? ==> a.gen < b.gen)
  {
  }

  /** A reload shows the image and continues the count of the slot the loader picks, with persistence on exactly then. */
  lemma ReloadMeaning(s: State)
    ensures var t := Step(s, Reload);
            && t.alive && t.a == s.a && t.b == s.b && t.slot == Load(s.a, s.b)
            && (t.persist <==> s.a.Whole? || s.b.Whole?)
            && (t.persist ==> t.image == Get(s, t.slot.value).image && t.gen == Get(s, t.slot.value).gen)
            && (!t.persist ==> t.image == PRISTINE && t.gen == 0)
  {
  }

  /** A save that fails switches persistence off and leaves the session and its counters as they were. */
  lemma FailedSaveKeepsSession(s: State, cut: Cut)
    requires s.alive && s.persist
    ensures var t := Step(s, Save(Fails(cut)));
            && !t.persist && t.alive && t.image == s.image && t.gen == s.gen && t.slot == s.slot && t.lastDone == s.lastDone
            && Get(t, Other(Target(s.slot))) == Get(s, Other(Target(s.slot)))
  {
  }

  /** What can change a slot: removal by a clear, and a save with persistence on, in the slot it targets. */
  lemma SlotChanges(s: State, e: Event, w: Which)
    requires Get(Step(s, e), w) != Get(s, w)
    ensures s.alive
    ensures (e.Clear? && Get(Step(s, e), w) == Absent)
         || (e.Save? && s.persist && w == Target(s.slot) && Get(Step(s, e), w) in {Corrupt, Written(s)})
  {
  }

  /** With persistence off, and never switched on again, nothing is ever written: a slot is as it was, or cleared. */
  lemma {:induction false} OffWritesNothing(s: State, es: seq<Event>, w: Which)
    requires !s.persist && forall i :: 0 <= i < |es| ==> !es[i].Enable? && !es[i].Reload?
    ensures !Run(s, es).persist
    ensures Get(Run(s, es), w) == Get(s, w) || Get(Run(s, es), w) == Absent
    decreases |es|
  {
    if es != [] {
      var front, e := es[..|es| - 1], es[|es| - 1];
      OffWritesNothing(s, front, w);
      var t := Run(s, front);
      if Get(Step(t, e), w) != Get(t, w) { SlotChanges(t, e, w); }
    }
  }

  /** Switching persistence off and clearing both slots leaves nothing to restore, whatever happened before. */
  lemma ClearedStartsPristine(s: State)
    requires s.alive
    ensures var t := Step(Step(Step(s, Disable), Clear(true, true, false)), Reload);
            t.image == PRISTINE && !t.persist && t.gen == 0 && t.slot == None
  {
  }
}
