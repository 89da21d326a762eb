/**
 Conservation of views over every interleaving of the pipeline, with every
 command allowed to fail, and what it says about the totals shown to owners.
 */
module ViewConservation {
  import opened ViewPipeline

  /** Views of `id` that a call of flush holds between GETDEL and AddViews or restore. */
  function HeldBy(pc: FlusherPc, id: int): nat {
    match pc
    case FGet(_, _, deltas, _) => At(deltas, id)
    case FAdd(_, deltas) => At(deltas, id)
    case FRestore(rest) => At(rest, id)
    case FRestoreMark(_, rest) => At(rest, id)
    case _ => 0
  }

  function Held(fs: seq<Flusher>, id: int): nat {
    if fs == [] then 0 else HeldBy(fs[0].pc, id) + Held(fs[1..], id)
  }

  /** Every view counted is in the store, in Redis, held by a flusher, or lost. */
  predicate Balance(s: State, id: int) {
    At(s.shared.counted, id) + At(s.shared.doubled, id)
    == At(s.shared.store, id) + At(s.shared.views, id) + Held(s.flushers, id) + At(s.shared.lost, id)
  }

  /** An id is read by GETDEL at most once in a batch. */
  predicate Tidy(s: State) {
    forall f :: 0 <= f < |s.flushers| && s.flushers[f].pc.FGet? ==>
      s.flushers[f].pc.todo !! s.flushers[f].pc.deltas.Keys
  }

  ghost predicate Conserved(s: State) {
    WellFormed(s) && Tidy(s) && forall id :: Balance(s, id)
  }

  lemma {:induction false} HeldUpdate(fs: seq<Flusher>, f: nat, x: Flusher, id: int)
    requires f < |fs|
    ensures Held(fs[f := x], id) + HeldBy(fs[f].pc, id) == Held(fs, id) + HeldBy(x.pc, id)
    decreases |fs|
  {
    if f > 0 {
      HeldUpdate(fs[1..], f - 1, x, id);
      assert fs[f := x][1..] == fs[1..][f - 1 := x];
    } else {
      assert fs[f := x][1..] == fs[1..];
    }
  }

  lemma {:induction false} HeldZero(fs: seq<Flusher>, id: int)
    requires forall f :: 0 <= f < |fs| ==> HeldBy(fs[f].pc, id) == 0
    ensures Held(fs, id) == 0
    decreases |fs|
  {
    if fs != [] {
      HeldZero(fs[1..], id);
    }
  }

  /** A worker's step counts a view exactly when it puts it into Redis. */
  lemma WorkerBalance(r: Shared, i: Instance, pc: WorkerPc, a: WorkerAct, id: int)
    requires WorkerCan(i, pc, a)
    ensures var t := WorkerShared(r, i, pc, a);
      && t.store == r.store && t.lost == r.lost && t.doubled == r.doubled
      && At(t.counted, id) - At(r.counted, id) == At(t.views, id) - At(r.views, id)
  {
  }

  /** What a flusher can account for: its own deltas, the store and Redis, less what was persisted twice. */
  function Holding(r: Shared, pc: FlusherPc, id: int): int {
    At(r.store, id) + At(r.views, id) + HeldBy(pc, id) + At(r.lost, id) - At(r.doubled, id)
  }

  lemma GetDelBalance(r: Shared, x: Flusher, k: int, out: Outcome, id: int)
    requires x.pc.FGet? && k in x.pc.todo && x.pc.todo !! x.pc.deltas.Keys
    ensures FlusherShared(r, x, GetDel(k, out)).counted == r.counted
    ensures Holding(FlusherShared(r, x, GetDel(k, out)), FlusherNext(r, x, GetDel(k, out)).pc, id)
         == Holding(r, x.pc, id)
  {
  }

  lemma AddViewsBalance(r: Shared, x: Flusher, out: Outcome, id: int)
    requires x.pc.FAdd?
    ensures FlusherShared(r, x, AddViews(out)).counted == r.counted
    ensures Holding(FlusherShared(r, x, AddViews(out)), FlusherNext(r, x, AddViews(out)).pc, id)
         == Holding(r, x.pc, id)
  {
  }

  lemma RestoreIncrBalance(r: Shared, x: Flusher, k: int, out: Outcome, id: int)
    requires x.pc.FRestore? && k in x.pc.rest
    ensures FlusherShared(r, x, RestoreIncr(k, out)).counted == r.counted
    ensures Holding(FlusherShared(r, x, RestoreIncr(k, out)), FlusherNext(r, x, RestoreIncr(k, out)).pc, id)
         == Holding(r, x.pc, id)
  {
  }

  /** Moves a view, as opposed to a mark or a program counter. */
  predicate MovesViews(a: FlusherAct) {
    a.GetDel? || a.AddViews? || a.RestoreIncr?
  }

  lemma OtherShared(r: Shared, x: Flusher, a: FlusherAct)
    requires FlusherCan(r, x, true, true, a) && !MovesViews(a)
    ensures FlusherShared(r, x, a) == r.(dirty := FlusherShared(r, x, a).dirty)
  {
  }

  lemma OtherHeld(r: Shared, x: Flusher, a: FlusherAct, id: int)
    requires FlusherCan(r, x, true, true, a) && !MovesViews(a)
    ensures HeldBy(FlusherNext(r, x, a).pc, id) == HeldBy(x.pc, id)
  {
  }

  /** A flusher's step only moves views between Redis, its own hands, the store and `lost`. */
  lemma FlusherBalance(r: Shared, x: Flusher, a: FlusherAct, id: int)
    requires FlusherCan(r, x, true, true, a)
    requires x.pc.FGet? ==> x.pc.todo !! x.pc.deltas.Keys
    ensures FlusherShared(r, x, a).counted == r.counted
    ensures Holding(FlusherShared(r, x, a), FlusherNext(r, x, a).pc, id) == Holding(r, x.pc, id)
  {
    hide FlusherNext;
    hide FlusherShared;
    match a
    case GetDel(k, out) => GetDelBalance(r, x, k, out, id);
    case AddViews(out) => AddViewsBalance(r, x, out, id);
    case RestoreIncr(k, out) => RestoreIncrBalance(r, x, k, out, id);
    case _ => OtherShared(r, x, a); OtherHeld(r, x, a, id);
  }

  lemma FlusherTidy(r: Shared, x: Flusher, a: FlusherAct)
    requires FlusherCan(r, x, true, true, a)
    requires x.pc.FGet? ==> x.pc.todo !! x.pc.deltas.Keys
    ensures var y := FlusherNext(r, x, a); y.pc.FGet? ==> y.pc.todo !! y.pc.deltas.Keys
  {
  }

  lemma ConservedStep(s: State, l: Label)
    requires Conserved(s) && Enabled(s, l)
    ensures Conserved(Apply(s, l))
  {
    var t := Apply(s, l);
    match l
    case Work(w, a) =>
      forall id ensures Balance(t, id) {
        assert Balance(s, id);
        WorkerBalance(s.shared, s.insts[s.workerHome[w]], s.workers[w], a, id);
      }
    case Flush(f, a) =>
      forall id ensures Balance(t, id) {
        assert Balance(s, id);
        FlusherBalance(s.shared, s.flushers[f], a, id);
        HeldUpdate(s.flushers, f, t.flushers[f], id);
      }
      FlusherTidy(s.shared, s.flushers[f], a);
    case _ =>
      forall id ensures Balance(t, id) { assert Balance(s, id); }
  }

  /** Conservation holds in every reachable state of any number of instances. */
  lemma {:induction false} ViewsAreConserved(s: State, ls: seq<Label>)
    requires Conserved(s) && Legal(s, ls)
    ensures Conserved(Exec(s, ls))
    decreases |ls|
  {
    if ls != [] {
      ConservedStep(s, ls[0]);
      ViewsAreConserved(Apply(s, ls[0]), ls[1..]);
    }
  }

  lemma InitialIsConserved(s: State)
    requires Initial(s)
    ensures Conserved(s)
  {
    forall id ensures Balance(s, id) { HeldZero(s.flushers, id); }
  }

  /** The two ways to lose a view: a failed INCRBY of restore, or a GETDEL whose reply is lost. */
  predicate Loses(l: Label) {
    && l.Flush?
    && ((l.flush.RestoreIncr? && l.flush.out.Rejected?) || (l.flush.GetDel? && l.flush.out.Lost?))
  }

  /** The one way to persist views twice: an AddViews that commits and still reports an error. */
  predicate Doubles(l: Label) {
    l.Flush? && l.flush == AddViews(Lost)
  }

  /** Stored, counted, lost and doubled views never decrease; the last two grow only at the named faults. */
  predicate Grows(r: Shared, t: Shared, id: int, loses: bool, doubles: bool) {
    && At(r.store, id) <= At(t.store, id) && At(r.counted, id) <= At(t.counted, id)
    && At(r.lost, id) <= At(t.lost, id) && At(r.doubled, id) <= At(t.doubled, id)
    && (!loses ==> t.lost == r.lost)
    && (!doubles ==> t.doubled == r.doubled)
  }

  lemma SharedGrows(r: Shared, x: Flusher, a: FlusherAct, id: int)
    requires FlusherCan(r, x, true, true, a)
    ensures Grows(r, FlusherShared(r, x, a), id, Loses(Flush(0, a)), Doubles(Flush(0, a)))
  {
  }

  lemma StepGrows(s: State, l: Label, id: int)
    requires WellFormed(s) && Enabled(s, l)
    ensures Grows(s.shared, Apply(s, l).shared, id, Loses(l), Doubles(l))
  {
    match l
    case Work(w, a) => WorkerBalance(s.shared, s.insts[s.workerHome[w]], s.workers[w], a, id);
    case Flush(f, a) => SharedGrows(s.shared, s.flushers[f], a, id);
    case _ =>
  }

  ghost predicate AnyLoses(ls: seq<Label>) {
    exists l :: l in ls && Loses(l)
  }

  ghost predicate AnyDoubles(ls: seq<Label>) {
    exists l :: l in ls && Doubles(l)
  }

  lemma {:induction false} RunGrows(s: State, ls: seq<Label>, id: int)
    requires WellFormed(s) && Legal(s, ls)
    ensures Grows(s.shared, Exec(s, ls).shared, id, AnyLoses(ls), AnyDoubles(ls))
    decreases |ls|
  {
    if ls != [] {
      StepGrows(s, ls[0], id);
      RunGrows(Apply(s, ls[0]), ls[1..], id);
      assert ls[0] in ls && forall l :: l in ls[1..] ==> l in ls;
    }
  }

  /**
   From the start: nothing is lost unless restore or a GETDEL reply fails, and
   unless a committed AddViews reports an error no view is ever persisted twice,
   whatever ids two flushers pop at the same time.
   */
  lemma NothingLostOrPersistedTwice(s: State, ls: seq<Label>, id: int)
    requires Initial(s) && Legal(s, ls)
    ensures var r := Exec(s, ls).shared;
      && (!AnyDoubles(ls) ==> At(r.store, id) <= At(r.counted, id))
      && (!AnyDoubles(ls) && !AnyLoses(ls) ==>
            At(r.counted, id) == At(r.store, id) + At(r.views, id) + Held(Exec(s, ls).flushers, id))
  {
    InitialIsConserved(s);
    ViewsAreConserved(s, ls);
    RunGrows(s, ls, id);
    assert Balance(Exec(s, ls), id);
  }

  /** Stats reads the store in one state and the pending counter in a later one. */
  function StatsTotal(first: State, second: State, id: int): nat {
    At(first.shared.store, id) + At(second.shared.views, id)
  }

  /**
   What the owner is shown, exactly: the views counted (or doubled) by the second
   read, short by those that moved to the store between the reads, those a flusher
   holds and those lost.
   */
  lemma StatsShortfall(s: State, ls: seq<Label>, id: int)
    requires Conserved(s) && Legal(s, ls)
    ensures var t := Exec(s, ls);
      && At(s.shared.store, id) <= At(t.shared.store, id)
      && At(t.shared.counted, id) + At(t.shared.doubled, id) - StatsTotal(s, t, id)
         == (At(t.shared.store, id) - At(s.shared.store, id)) + Held(t.flushers, id) + At(t.shared.lost, id)
  {
    ViewsAreConserved(s, ls);
    RunGrows(s, ls, id);
    assert Balance(Exec(s, ls), id);
  }

  /** Stats over-reports if and only if more was persisted twice than is missing from the two reads. */
  lemma StatsOverReportsIff(s: State, ls: seq<Label>, id: int)
    requires Conserved(s) && Legal(s, ls)
    ensures var t := Exec(s, ls);
            var moved := At(t.shared.store, id) - At(s.shared.store, id);
            var missing := moved + Held(t.flushers, id) + At(t.shared.lost, id);
      && (StatsTotal(s, t, id) > At(t.shared.counted, id) <==> At(t.shared.doubled, id) > missing)
      && (StatsTotal(s, t, id) == At(t.shared.counted, id) <==> At(t.shared.doubled, id) == missing)
  {
    StatsShortfall(s, ls, id);
  }

  /**
   Stats never over-reports while nothing is persisted twice, and it is exact if
   and only if nothing moved between the reads, no flusher holds the link's views
   and none were lost.
   */
  lemma StatsNeverOverReports(s: State, before: seq<Label>, between: seq<Label>, id: int)
    requires Initial(s) && Legal(s, before) && Legal(Exec(s, before), between)
    requires !AnyDoubles(before) && !AnyDoubles(between)
    ensures var first := Exec(s, before);
            var second := Exec(first, between);
      && StatsTotal(first, second, id) <= At(second.shared.counted, id)
      && (StatsTotal(first, second, id) == At(second.shared.counted, id) <==>
            && At(second.shared.store, id) == At(first.shared.store, id)
            && Held(second.flushers, id) == 0 && At(second.shared.lost, id) == 0)
  {
    InitialIsConserved(s);
    ViewsAreConserved(s, before);
    RunGrows(s, before, id);
    RunGrows(Exec(s, before), between, id);
    StatsShortfall(Exec(s, before), between, id);
  }
}
