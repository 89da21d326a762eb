/**
 What is lost and what is persisted twice, exactly: conservation with the history
 fields replaced by the amounts that the faulty steps of the run had in hand.
 */
module ViewLoss {
  import opened ViewPipeline
  import opened ViewConservation
  import opened Limits

  /** Views of `id` that a step destroys: a refused INCRBY of restore, or a GETDEL whose reply is lost. */
  function Destroys(r: Shared, x: Flusher, a: FlusherAct, id: int): nat
    requires FlusherCan(r, x, true, true, a)
  {
    match a
    case RestoreIncr(k, out) => if k == id && out.Rejected? then At(x.pc.rest, id) else 0
    case GetDel(k, out) => if k == id && out.Lost? then At(r.views, id) else 0
    case _ => 0
  }

  /** Views of `id` that a step persists although restore will put them back. */
  function Repeats(r: Shared, x: Flusher, a: FlusherAct, id: int): nat
    requires FlusherCan(r, x, true, true, a)
  {
    if a.AddViews? && a.out.Lost? then At(x.pc.deltas, id) else 0
  }

  function LossAt(s: State, l: Label, id: int): nat
    requires WellFormed(s) && Enabled(s, l)
  {
    if l.Flush? then Destroys(s.shared, s.flushers[l.f], l.flush, id) else 0
  }

  function DoubledAt(s: State, l: Label, id: int): nat
    requires WellFormed(s) && Enabled(s, l)
  {
    if l.Flush? then Repeats(s.shared, s.flushers[l.f], l.flush, id) else 0
  }

  function LossAlong(s: State, ls: seq<Label>, id: int): nat
    requires WellFormed(s) && Legal(s, ls)
    decreases |ls|
  {
    if ls == [] then 0 else LossAt(s, ls[0], id) + LossAlong(Apply(s, ls[0]), ls[1..], id)
  }

  function DoubledAlong(s: State, ls: seq<Label>, id: int): nat
    requires WellFormed(s) && Legal(s, ls)
    decreases |ls|
  {
    if ls == [] then 0 else DoubledAt(s, ls[0], id) + DoubledAlong(Apply(s, ls[0]), ls[1..], id)
  }

  /** `lost` and `doubled` record the amounts a step destroys and repeats. */
  predicate Records(r: Shared, x: Flusher, a: FlusherAct, id: int)
    requires FlusherCan(r, x, true, true, a)
  {
    var t := FlusherShared(r, x, a);
    && At(t.lost, id) == At(r.lost, id) + Destroys(r, x, a, id)
    && At(t.doubled, id) == At(r.doubled, id) + Repeats(r, x, a, id)
  }

  lemma GetDelRecords(r: Shared, x: Flusher, k: int, out: Outcome, id: int)
    requires x.pc.FGet? && k in x.pc.todo
    ensures Records(r, x, GetDel(k, out), id)
  {
  }

  lemma AddViewsRecords(r: Shared, x: Flusher, out: Outcome, id: int)
    requires x.pc.FAdd?
    ensures Records(r, x, AddViews(out), id)
  {
  }

  lemma RestoreIncrRecords(r: Shared, x: Flusher, k: int, out: Outcome, id: int)
    requires x.pc.FRestore? && k in x.pc.rest
    ensures Records(r, x, RestoreIncr(k, out), id)
  {
  }

  lemma FlusherRecords(r: Shared, x: Flusher, a: FlusherAct, id: int)
    requires FlusherCan(r, x, true, true, a)
    ensures Records(r, x, a, id)
  {
    hide FlusherShared;
    match a
    case GetDel(k, out) => GetDelRecords(r, x, k, out, id);
    case AddViews(out) => AddViewsRecords(r, x, out, id);
    case RestoreIncr(k, out) => RestoreIncrRecords(r, x, k, out, id);
    case _ => OtherShared(r, x, a);
  }

  lemma StepHistory(s: State, l: Label, id: int)
    requires WellFormed(s) && Enabled(s, l)
    ensures var t := Apply(s, l).shared;
      && At(t.lost, id) == At(s.shared.lost, id) + LossAt(s, l, id)
      && At(t.doubled, id) == At(s.shared.doubled, id) + DoubledAt(s, l, id)
  {
    match l
    case Flush(f, a) => FlusherRecords(s.shared, s.flushers[f], a, id);
    case Work(w, a) => WorkerBalance(s.shared, s.insts[s.workerHome[w]], s.workers[w], a, id);
    case _ =>
  }

  lemma {:induction false} RunHistory(s: State, ls: seq<Label>, id: int)
    requires WellFormed(s) && Legal(s, ls)
    ensures var t := Exec(s, ls).shared;
      && At(t.lost, id) == At(s.shared.lost, id) + LossAlong(s, ls, id)
      && At(t.doubled, id) == At(s.shared.doubled, id) + DoubledAlong(s, ls, id)
    decreases |ls|
  {
    hide Apply;
    hide LossAt;
    hide DoubledAt;
    if ls != [] {
      StepHistory(s, ls[0], id);
      RunHistory(Apply(s, ls[0]), ls[1..], id);
    }
  }

  /**
   From the start of any run: the views counted, plus those persisted twice, are those
   stored, in Redis and held by flushers, plus those the faulty steps destroyed.
   So without a double AddViews, a view is missing if and only if a step destroyed one.
   */
  lemma LossIsExact(s: State, ls: seq<Label>, id: int)
    requires Initial(s) && Legal(s, ls)
    ensures var t := Exec(s, ls);
      At(t.shared.counted, id) + DoubledAlong(s, ls, id)
      == At(t.shared.store, id) + At(t.shared.views, id) + Held(t.flushers, id) + LossAlong(s, ls, id)
  {
    InitialIsConserved(s);
    ViewsAreConserved(s, ls);
    RunHistory(s, ls, id);
    assert Balance(Exec(s, ls), id);
  }

  /* ---------- What a cancelled flush loses ---------- */

  /** A command on a cancelled context fails; one that was in flight may have taken effect. */
  predicate Fails(x: Flusher, a: FlusherAct) {
    match a
    case Pop(_, out) => !out.Ok?
    case GetDel(_, out) => !out.Ok?
    case Retry(out) => out.Ok? ==> x.pc.FGet? && x.pc.retry == {}
    case AddViews(out) => !out.Ok?
    case RestoreIncr(_, out) => !out.Ok?
    case RestoreMark(out) => !out.Ok?
    case _ => true
  }

  /** Until its final flush, flusher `f` runs on a cancelled context; nobody else loses anything. */
  predicate CutOff(s: State, l: Label, f: nat)
    requires WellFormed(s) && Enabled(s, l) && f < |s.flushers|
  {
    if l.Flush? && l.f == f && !s.flushers[f].final then Fails(s.flushers[f], l.flush) else !Loses(l)
  }

  predicate CutOffAlong(s: State, ls: seq<Label>, f: nat)
    requires WellFormed(s) && Legal(s, ls) && f < |s.flushers|
    decreases |ls|
  {
    ls == [] || (CutOff(s, ls[0], f) && CutOffAlong(Apply(s, ls[0]), ls[1..], f))
  }

  /** What the ticker flush of `f` holds. */
  function HeldByTicker(x: Flusher, id: int): nat {
    if x.final then 0 else HeldBy(x.pc, id)
  }

  /** What its GETDELs in flight take although their replies are lost. */
  function TakenAt(s: State, l: Label, f: nat, id: int): nat
    requires WellFormed(s) && Enabled(s, l) && f < |s.flushers|
  {
    if l == Flush(f, GetDel(id, Lost)) && !s.flushers[f].final then At(s.shared.views, id) else 0
  }

  function TakenAlong(s: State, ls: seq<Label>, f: nat, id: int): nat
    requires WellFormed(s) && Legal(s, ls) && f < |s.flushers|
    decreases |ls|
  {
    if ls == [] then 0 else TakenAt(s, ls[0], f, id) + TakenAlong(Apply(s, ls[0]), ls[1..], f, id)
  }

  /** What its INCRBYs in flight put back although their replies are lost. */
  function PutBackAt(s: State, l: Label, f: nat, id: int): nat
    requires WellFormed(s) && Enabled(s, l) && f < |s.flushers|
  {
    if l == Flush(f, RestoreIncr(id, Lost)) && !s.flushers[f].final then At(s.flushers[f].pc.rest, id) else 0
  }

  function PutBackAlong(s: State, ls: seq<Label>, f: nat, id: int): nat
    requires WellFormed(s) && Legal(s, ls) && f < |s.flushers|
    decreases |ls|
  {
    if ls == [] then 0 else PutBackAt(s, ls[0], f, id) + PutBackAlong(Apply(s, ls[0]), ls[1..], f, id)
  }

  lemma CutFlusher(r: Shared, x: Flusher, a: FlusherAct, id: int)
    requires FlusherCan(r, x, true, true, a) && !x.final && Fails(x, a)
    ensures Destroys(r, x, a, id) + HeldByTicker(FlusherNext(r, x, a), id)
            + (if a == RestoreIncr(id, Lost) then At(x.pc.rest, id) else 0)
         == HeldByTicker(x, id) + if a == GetDel(id, Lost) then At(r.views, id) else 0
  {
  }

  lemma FinalStays(r: Shared, x: Flusher, a: FlusherAct)
    requires FlusherCan(r, x, true, true, a) && x.final
    ensures FlusherNext(r, x, a).final
  {
  }

  lemma CutStep(s: State, l: Label, f: nat, id: int)
    requires WellFormed(s) && Enabled(s, l) && f < |s.flushers| && CutOff(s, l, f)
    ensures LossAt(s, l, id) + PutBackAt(s, l, f, id) + HeldByTicker(Apply(s, l).flushers[f], id)
         == HeldByTicker(s.flushers[f], id) + TakenAt(s, l, f, id)
  {
    hide FlusherNext;
    hide FlusherShared;
    match l
    case Flush(g, a) =>
      if g == f {
        if s.flushers[f].final {
          FinalStays(s.shared, s.flushers[f], a);
        } else {
          CutFlusher(s.shared, s.flushers[f], a, id);
        }
      }
    case _ =>
  }

  lemma {:induction false} CutRun(s: State, ls: seq<Label>, f: nat, id: int)
    requires WellFormed(s) && Legal(s, ls) && f < |s.flushers| && CutOffAlong(s, ls, f)
    ensures f < |Exec(s, ls).flushers|
    ensures LossAlong(s, ls, id) + PutBackAlong(s, ls, f, id) + HeldByTicker(Exec(s, ls).flushers[f], id)
         == HeldByTicker(s.flushers[f], id) + TakenAlong(s, ls, f, id)
    decreases |ls|
  {
    if ls != [] {
      CutStep(s, ls[0], f, id);
      assert |Apply(s, ls[0]).flushers| == |s.flushers|;
      hide Apply;
      hide LossAt;
      hide TakenAt;
      hide PutBackAt;
      hide HeldByTicker;
      CutRun(Apply(s, ls[0]), ls[1..], f, id);
    }
  }

  /**
   If only the commands of one ticker flush fail, from the instant its context is
   cancelled, then once it has returned the views lost are exactly those it held at
   that instant and those a GETDEL then in flight took, less those an INCRBY of restore
   then in flight put back.
   */
  lemma CutFlushLosesWhatItHeld(s: State, ls: seq<Label>, f: nat, id: int)
    requires WellFormed(s) && Legal(s, ls) && f < |s.flushers| && CutOffAlong(s, ls, f)
    requires !s.flushers[f].final && f < |Exec(s, ls).flushers|
    requires var x := Exec(s, ls).flushers[f]; x.final || x.pc.FIdle? || x.pc.TickerGone?
    ensures LossAlong(s, ls, id) + PutBackAlong(s, ls, f, id)
         == HeldBy(s.flushers[f].pc, id) + TakenAlong(s, ls, f, id)
    ensures At(Exec(s, ls).shared.lost, id) == At(s.shared.lost, id) + LossAlong(s, ls, id)
  {
    CutRun(s, ls, f, id);
    RunHistory(s, ls, id);
  }

  /* ---------- Runs that go wrong ---------- */

  /** One event is recorded; a ticker flush takes it, and the context is cancelled before AddViews. */
  function Stage(n: nat, e: Event): State {
    var none := multiset{};
    var seen := map[e := DEDUPE_WINDOW];
    var one := map[e.link := 1];
    var start := Shared(0, map[], map[], {}, map[], map[], map[], map[]);
    var counted := Shared(0, seen, one, {}, map[], one, map[], map[]);
    var marked := counted.(dirty := {e.link});
    var taken := counted.(views := map[]);
    var lost := taken.(lost := one);
    var i0 := Instance([], false, none, none, none);
    var i1 := Instance([e], false, multiset{e}, none, none);
    var i2 := Instance([], false, multiset{e}, none, none);
    var i3 := Instance([], false, multiset{e}, none, multiset{e});
    var i4 := i3.(cancelled := true);
    match n
    case 0 => One(start, i0, WIdle, FIdle)
    case 1 => One(start, i1, WIdle, FIdle)
    case 2 => One(start, i2, WScript(e), FIdle)
    case 3 => One(counted, i2, WMark(e), FIdle)
    case 4 => One(marked, i3, WIdle, FIdle)
    case 5 => One(marked, i3, WIdle, FPop)
    case 6 => One(counted, i3, WIdle, FGet(false, {e.link}, map[], {}))
    case 7 => One(taken, i3, WIdle, FGet(false, {}, one, {}))
    case 8 => One(taken, i3, WIdle, FAdd(false, one))
    case 9 => One(taken, i4, WIdle, FAdd(false, one))
    case 10 => One(taken, i4, WIdle, FRestore(one))
    case 11 => One(lost, i4, WIdle, FRestoreMark(e.link, map[]))
    case _ => One(lost, i4, WIdle, FIdle)
  }

  function One(r: Shared, i: Instance, w: WorkerPc, f: FlusherPc): State {
    State(r, [i], [w], [0], [Flusher(false, f)], [0])
  }

  function StageLabel(n: nat, e: Event): Label {
    match n
    case 0 => Track(0, e)
    case 1 => Work(0, Receive)
    case 2 => Work(0, Script(Ok))
    case 3 => Work(0, Mark(Ok))
    case 4 => Flush(0, Start)
    case 5 => Flush(0, Pop({e.link}, Ok))
    case 6 => Flush(0, GetDel(e.link, Ok))
    case 7 => Flush(0, Retry(Ok))
    case 8 => Cancel(0)
    case 9 => Flush(0, AddViews(Rejected))
    case 10 => Flush(0, RestoreIncr(e.link, Rejected))
    case _ => Flush(0, RestoreMark(Rejected))
  }

  lemma StageStep(n: nat, e: Event)
    requires n < 12
    ensures Steps(Stage(n, e), StageLabel(n, e), Stage(n + 1, e))
  {
    hide Stage;
    hide StageLabel;
    if n == 0 {
      TrackingStep(e);
    } else if n == 1 {
      ReceivingStep(e);
    } else if n == 2 {
      CountingStep(e);
    } else if n == 3 {
      MarkingStep(e);
    } else if n < 8 {
      TakingStep(n, e);
    } else {
      LosingStep(n, e);
    }
  }

  lemma TrackingStep(e: Event)
    ensures Steps(Stage(0, e), StageLabel(0, e), Stage(1, e))
  {
    var i, j := Apply(Stage(0, e), StageLabel(0, e)).insts[0], Stage(1, e).insts[0];
    assert i.queue == j.queue && i.tracked == j.tracked;
    assert Apply(Stage(0, e), StageLabel(0, e)).insts == Stage(1, e).insts;
  }

  lemma ReceivingStep(e: Event)
    ensures Steps(Stage(1, e), StageLabel(1, e), Stage(2, e))
  {
    var u := Apply(Stage(1, e), StageLabel(1, e));
    assert u.insts[0].queue == [];
    assert u.insts == Stage(2, e).insts && u.workers == Stage(2, e).workers;
  }

  lemma CountingStep(e: Event)
    ensures Steps(Stage(2, e), StageLabel(2, e), Stage(3, e))
  {
    var u := Apply(Stage(2, e), StageLabel(2, e));
    assert u.insts == Stage(3, e).insts && u.workers == Stage(3, e).workers;
  }

  lemma MarkingStep(e: Event)
    ensures Steps(Stage(3, e), StageLabel(3, e), Stage(4, e))
  {
    var u := Apply(Stage(3, e), StageLabel(3, e));
    var i, j := u.insts[0], Stage(4, e).insts[0];
    assert i.finished == j.finished;
    assert u.insts == Stage(4, e).insts && u.workers == Stage(4, e).workers;
  }

  lemma TakingStep(n: nat, e: Event)
    requires 4 <= n < 8
    ensures Steps(Stage(n, e), StageLabel(n, e), Stage(n + 1, e))
  {
    var s, t := Stage(n, e), Stage(n + 1, e);
    assert |{e.link}| == 1 && {e.link} - {e.link} == {} && map[e.link := 1] - {e.link} == map[];
    assert e.link in map[e.link := 1];
    var u := Apply(s, StageLabel(n, e));
    assert u.flushers == t.flushers;
  }

  lemma LosingStep(n: nat, e: Event)
    requires 8 <= n < 12
    ensures Steps(Stage(n, e), StageLabel(n, e), Stage(n + 1, e))
  {
    var s, t := Stage(n, e), Stage(n + 1, e);
    assert map[e.link := 1] - {e.link} == map[];
    var u := Apply(s, StageLabel(n, e));
    assert u.flushers == t.flushers;
    assert u.shared == t.shared;
  }

  /** The stages from `n` to `m`, followed by `rest`. */
  lemma {:induction false} StageRun(n: nat, m: nat, e: Event, rest: seq<Label>) returns (ls: seq<Label>)
    requires n <= m <= 12 && WellFormed(Stage(m, e)) && Legal(Stage(m, e), rest)
    ensures forall l :: l in ls ==> l in rest || exists k: nat :: n <= k < m && l == StageLabel(k, e)
    ensures WellFormed(Stage(n, e)) && Legal(Stage(n, e), ls)
    ensures Exec(Stage(n, e), ls) == Exec(Stage(m, e), rest)
    decreases m - n
  {
    hide Stage;
    hide StageLabel;
    hide Apply;
    if n == m {
      ls := rest;
    } else {
      StageStep(n, e);
      assert n <= n < m;
      ls := StageRun(n + 1, m, e, rest);
      LegalCons(Stage(n, e), StageLabel(n, e), ls);
      ls := [StageLabel(n, e)] + ls;
    }
  }

  /**
   restore runs on the context of the flush it repairs. When shutdown cancels that
   context in the middle of a flush, AddViews and restore both fail, and the view
   is nowhere: neither stored, nor in Redis, nor held.
   */
  lemma CutFlushLosesItsBatch(e: Event) returns (s: State, ls: seq<Label>)
    ensures Initial(s) && Legal(s, ls)
    ensures var t := Exec(s, ls);
      && |t.insts| == 1 && t.insts[0].cancelled && At(t.shared.counted, e.link) == 1 && LossAlong(s, ls, e.link) == 1
      && At(t.shared.store, e.link) + At(t.shared.views, e.link) + Held(t.flushers, e.link) == 0
  {
    s := Stage(0, e);
    ls := StageRun(0, 12, e, []);
    RunHistory(s, ls, e.link);
  }

  /** From stage 8: AddViews commits and reports an error, and restore puts the view back. */
  function Doubled(n: nat, e: Event): State {
    var one := map[e.link := 1];
    var none := multiset{};
    var i := Instance([], false, multiset{e}, none, multiset{e});
    var taken := Shared(0, map[e := DEDUPE_WINDOW], map[], {}, one, one, map[], one);
    match n
    case 0 => Stage(8, e)
    case 1 => One(taken, i, WIdle, FRestore(one))
    case 2 => One(taken.(views := one), i, WIdle, FRestoreMark(e.link, map[]))
    case _ => One(taken.(views := one, dirty := {e.link}), i, WIdle, FIdle)
  }

  function DoubledLabel(n: nat, e: Event): Label {
    match n
    case 0 => Flush(0, AddViews(Lost))
    case 1 => Flush(0, RestoreIncr(e.link, Ok))
    case _ => Flush(0, RestoreMark(Ok))
  }

  lemma DoubledStep(n: nat, e: Event)
    requires n < 3
    ensures Steps(Doubled(n, e), DoubledLabel(n, e), Doubled(n + 1, e))
  {
    var u, t := Apply(Doubled(n, e), DoubledLabel(n, e)), Doubled(n + 1, e);
    assert map[e.link := 1] - {e.link} == map[];
    assert u.flushers == t.flushers;
    assert u.shared.store == t.shared.store && u.shared.doubled == t.shared.doubled;
    assert u.shared == t.shared;
  }

  lemma {:induction false} DoubledRun(n: nat, e: Event) returns (ls: seq<Label>)
    requires n <= 3
    ensures WellFormed(Doubled(n, e)) && Legal(Doubled(n, e), ls) && Exec(Doubled(n, e), ls) == Doubled(3, e)
    decreases 3 - n
  {
    hide Doubled;
    hide DoubledLabel;
    hide Apply;
    if n == 3 {
      DoubledStep(2, e);
      ls := [];
    } else {
      DoubledStep(n, e);
      ls := DoubledRun(n + 1, e);
      LegalCons(Doubled(n, e), DoubledLabel(n, e), ls);
      ls := [DoubledLabel(n, e)] + ls;
    }
  }

  lemma DoubledEnd(e: Event)
    ensures Initial(Stage(0, e)) && Doubled(0, e) == Stage(8, e)
    ensures StatsTotal(Doubled(3, e), Doubled(3, e), e.link) == 2 && At(Doubled(3, e).shared.counted, e.link) == 1
  {
  }

  /** One view, stored once and back in Redis: the owner is shown two. */
  lemma StatsCanOverReport(e: Event) returns (s: State, ls: seq<Label>)
    ensures Initial(s) && Legal(s, ls)
    ensures var t := Exec(s, ls); StatsTotal(t, t, e.link) == 2 && At(t.shared.counted, e.link) == 1
  {
    DoubledEnd(e);
    hide Doubled;
    hide Stage;
    hide StatsTotal;
    ls := DoubledRun(0, e);
    s := Stage(0, e);
    ls := StageRun(0, 8, e, ls);
  }
}
