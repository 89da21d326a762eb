/**
 When counters are stranded, exactly: each of the five faults that forget a mark can
 strand a counter, none does without them, and a stranded counter stays where it is
 until somebody visits the link again or puts back views of it.
 */
module ViewStranded {
  import opened ViewPipeline
  import opened ViewMarks
  import ViewLoss

  /** Every mark that is forgotten in the run is forgotten by one of these faults. */
  ghost predicate OnlyFaults(xs: set<MarkFault>, ls: seq<Label>) {
    forall l :: l in ls && Unmarks(l) ==> FaultOf(l).value in xs
  }

  /** No system in which marks are forgotten by these faults only ever has a stranded counter. */
  ghost predicate NeverStrands(xs: set<MarkFault>) {
    forall s: State, ls: seq<Label>, id: int ::
      Initial(s) && Legal(s, ls) && OnlyFaults(xs, ls) ==> Covered(Exec(s, ls), id)
  }

  /* ---------- One run for each fault ---------- */

  /** The stage of the common run at which the fault strikes. */
  function StageOf(x: MarkFault): nat {
    match x
    case LostScript => 2
    case RefusedMark => 3
    case LostPop => 5
    case RefusedRetry => 6
    case RefusedRestoreMark => 10
  }

  function Ending(x: MarkFault, e: Event): seq<Label> {
    match x
    case LostScript => [Work(0, Script(Lost))]
    case RefusedMark => [Work(0, Mark(Rejected))]
    case LostPop => [Flush(0, Pop({e.link}, Lost))]
    case RefusedRetry => [Flush(0, GetDel(e.link, Rejected)), Flush(0, Retry(Rejected))]
    case RefusedRestoreMark =>
      [Flush(0, RestoreIncr(e.link, Ok)), Flush(0, RestoreMark(Rejected))]
  }

  ghost predicate Strands(s: State, ls: seq<Label>, id: int) {
    WellFormed(s) && Legal(s, ls) && !Covered(Exec(s, ls), id)
  }

  lemma LastStrands(s: State, l: Label, id: int)
    requires WellFormed(s) && Enabled(s, l) && !Covered(Apply(s, l), id)
    ensures Strands(s, [l], id)
  {
    assert [l][1..] == [];
  }

  lemma ThenStrands(s: State, l: Label, ls: seq<Label>, id: int)
    requires WellFormed(s) && Enabled(s, l) && Strands(Apply(s, l), ls, id)
    ensures Strands(s, [l] + ls, id)
  {
    LegalCons(s, l, ls);
  }

  lemma ScriptOrMarkStrands(e: Event)
    ensures Strands(ViewLoss.Stage(2, e), Ending(LostScript, e), e.link)
    ensures Strands(ViewLoss.Stage(3, e), Ending(RefusedMark, e), e.link)
  {
    var t := Apply(ViewLoss.Stage(2, e), Work(0, Script(Lost)));
    assert t.workers == [WIdle];
    LastStrands(ViewLoss.Stage(2, e), Work(0, Script(Lost)), e.link);
    var u := Apply(ViewLoss.Stage(3, e), Work(0, Mark(Rejected)));
    assert u.workers == [WIdle];
    LastStrands(ViewLoss.Stage(3, e), Work(0, Mark(Rejected)), e.link);
  }

  lemma PopStrands(e: Event)
    ensures Strands(ViewLoss.Stage(5, e), Ending(LostPop, e), e.link)
  {
    var s, l := ViewLoss.Stage(5, e), Flush(0, Pop({e.link}, Lost));
    assert |{e.link}| == 1;
    assert Apply(s, l).flushers == [Flusher(false, FIdle)];
    LastStrands(s, l, e.link);
  }

  /** The common run with its flusher and shared state replaced. */
  function With(s: State, r: Shared, pc: FlusherPc): State {
    s.(shared := r, flushers := [Flusher(false, pc)])
  }

  lemma RetryStarts(e: Event)
    ensures var s := ViewLoss.Stage(6, e);
      Steps(s, Flush(0, GetDel(e.link, Rejected)), With(s, s.shared, FGet(false, {}, map[], {e.link})))
  {
    var t := Apply(ViewLoss.Stage(6, e), Flush(0, GetDel(e.link, Rejected)));
    assert {e.link} - {e.link} == {} && {} + {e.link} == {e.link};
    assert t.flushers == [Flusher(false, FGet(false, {}, map[], {e.link}))];
  }

  lemma RetryStrands(e: Event)
    ensures Strands(ViewLoss.Stage(6, e), Ending(RefusedRetry, e), e.link)
  {
    var s, m := ViewLoss.Stage(6, e), Flush(0, Retry(Rejected));
    var t := With(s, s.shared, FGet(false, {}, map[], {e.link}));
    RetryStarts(e);
    assert Apply(t, m).flushers == [Flusher(false, FIdle)];
    LastStrands(t, m, e.link);
    hide Apply;
    ThenStrands(s, Flush(0, GetDel(e.link, Rejected)), [m], e.link);
  }

  lemma RestoreStarts(e: Event)
    ensures var s := ViewLoss.Stage(10, e);
      Steps(s, Flush(0, RestoreIncr(e.link, Ok)),
            With(s, s.shared.(views := map[e.link := 1]), FRestoreMark(e.link, map[])))
  {
    var t := Apply(ViewLoss.Stage(10, e), Flush(0, RestoreIncr(e.link, Ok)));
    assert map[e.link := 1] - {e.link} == map[];
    assert t.flushers == [Flusher(false, FRestoreMark(e.link, map[]))];
  }

  /** A refused SADD of restore, with every view of the link in Redis. */
  lemma RestoreEnds(s: State, r: Shared, id: int)
    requires WellFormed(s) && |s.flushers| == 1 && s.workers == [WIdle] && id !in r.dirty && At(r.views, id) > 0
    ensures var t := With(s, r, FRestoreMark(id, map[]));
      && WellFormed(t) && Enabled(t, Flush(0, RestoreMark(Rejected)))
      && !Covered(Apply(t, Flush(0, RestoreMark(Rejected))), id)
  {
    var u := Apply(With(s, r, FRestoreMark(id, map[])), Flush(0, RestoreMark(Rejected)));
    assert u.flushers == [Flusher(false, FIdle)];
  }

  lemma RestoreStrands(e: Event)
    ensures Strands(ViewLoss.Stage(10, e), Ending(RefusedRestoreMark, e), e.link)
  {
    var s, m := ViewLoss.Stage(10, e), Flush(0, RestoreMark(Rejected));
    var r := s.shared.(views := map[e.link := 1]);
    RestoreStarts(e);
    RestoreEnds(s, r, e.link);
    hide Apply;
    hide Covered;
    LastStrands(With(s, r, FRestoreMark(e.link, map[])), m, e.link);
    ThenStrands(s, Flush(0, RestoreIncr(e.link, Ok)), [m], e.link);
  }

  lemma EndingStrands(x: MarkFault, e: Event)
    ensures Strands(ViewLoss.Stage(StageOf(x), e), Ending(x, e), e.link)
  {
    ScriptOrMarkStrands(e);
    PopStrands(e);
    RetryStrands(e);
    RestoreStrands(e);
    hide Strands;
    hide ViewLoss.Stage;
  }

  lemma EndingFaults(x: MarkFault, e: Event)
    ensures OnlyFaults({x}, Ending(x, e))
  {
  }

  /** The common run forgets no mark before the fault strikes. */
  lemma StagesKeepMarks(k: nat, e: Event)
    requires k < 10
    ensures !Unmarks(ViewLoss.StageLabel(k, e))
  {
  }

  lemma StartOfStages(e: Event)
    ensures Initial(ViewLoss.Stage(0, e))
  {
  }

  /** Each fault alone can leave a view in Redis that nobody is about to flush. */
  lemma EachFaultStrands(e: Event, x: MarkFault) returns (s: State, ls: seq<Label>)
    ensures Initial(s) && Legal(s, ls) && OnlyFaults({x}, ls) && !Covered(Exec(s, ls), e.link)
  {
    StartOfStages(e);
    EndingStrands(x, e);
    EndingFaults(x, e);
    s := ViewLoss.Stage(0, e);
    hide ViewLoss.Stage;
    hide ViewLoss.StageLabel;
    hide Ending;
    hide FaultOf;
    ls := ViewLoss.StageRun(0, StageOf(x), e, Ending(x, e));
    forall l | l in ls && Unmarks(l) ensures FaultOf(l).value == x {
      if l !in Ending(x, e) {
        var k: nat :| 0 <= k < StageOf(x) && l == ViewLoss.StageLabel(k, e);
        StagesKeepMarks(k, e);
      }
    }
  }

  /** No counter is ever stranded if and only if none of the five faults may happen. */
  lemma NeverStrandsIff(xs: set<MarkFault>)
    ensures NeverStrands(xs) <==> xs == {}
  {
    if xs == {} {
      forall s: State, ls: seq<Label>, id: int | Initial(s) && Legal(s, ls) && OnlyFaults(xs, ls)
        ensures Covered(Exec(s, ls), id)
      {
        NoCounterIsStranded(s, ls, id);
      }
    } else {
      var x :| x in xs;
      var e := Event(0, "");
      var s, ls := EachFaultStrands(e, x);
      assert OnlyFaults(xs, ls);
    }
  }

  /* ---------- A stranded counter stays ---------- */

  /** The steps that touch a stranded counter: a script that counts a view of the link, and restore. */
  predicate Touches(s: State, l: Label, id: int)
    requires WellFormed(s) && Enabled(s, l)
  {
    match l
    case Work(w, Script(out)) =>
      Applied(out) && s.workers[w].event.link == id && CountsNow(s.shared, s.workers[w].event)
    case Flush(_, RestoreIncr(k, _)) => k == id
    case _ => false
  }

  predicate TouchesAlong(s: State, ls: seq<Label>, id: int)
    requires WellFormed(s) && Legal(s, ls)
    decreases |ls|
  {
    ls != [] && (Touches(s, ls[0], id) || TouchesAlong(Apply(s, ls[0]), ls[1..], id))
  }

  predicate WorkerTouches(r: Shared, pc: WorkerPc, a: WorkerAct, id: int) {
    a.Script? && pc.WScript? && Applied(a.out) && pc.event.link == id && CountsNow(r, pc.event)
  }

  lemma WorkerLeaves(r: Shared, i: Instance, pc: WorkerPc, a: WorkerAct, id: int)
    requires WorkerCan(i, pc, a) && !Marking(pc, id) && !WorkerTouches(r, pc, a, id)
    ensures var t := WorkerShared(r, i, pc, a);
      && At(t.views, id) == At(r.views, id) && (id in t.dirty <==> id in r.dirty)
      && !Marking(WorkerNext(r, i, pc, a), id)
  {
  }

  lemma GetDelLeaves(r: Shared, x: Flusher, k: int, out: Outcome, id: int)
    requires x.pc.FGet? && k in x.pc.todo && id !in r.dirty && !Carries(x.pc, id)
    ensures var t := FlusherShared(r, x, GetDel(k, out));
      && At(t.views, id) == At(r.views, id) && id !in t.dirty
      && !Carries(FlusherNext(r, x, GetDel(k, out)).pc, id)
  {
  }

  lemma FlusherLeaves(r: Shared, x: Flusher, a: FlusherAct, id: int)
    requires FlusherCan(r, x, true, true, a) && id !in r.dirty && !Carries(x.pc, id)
    requires a.RestoreIncr? ==> a.id != id
    ensures var t := FlusherShared(r, x, a);
      && At(t.views, id) == At(r.views, id) && id !in t.dirty
      && !Carries(FlusherNext(r, x, a).pc, id)
  {
    match a
    case GetDel(k, out) => GetDelLeaves(r, x, k, out, id);
    case _ =>
  }

  lemma StrandedStep(s: State, l: Label, id: int)
    requires WellFormed(s) && Enabled(s, l) && !Covered(s, id) && !Touches(s, l, id)
    ensures !Covered(Apply(s, l), id) && At(Apply(s, l).shared.views, id) == At(s.shared.views, id)
  {
    var t := Apply(s, l);
    match l
    case Work(w, a) =>
      assert !Marking(s.workers[w], id);
      WorkerLeaves(s.shared, s.insts[s.workerHome[w]], s.workers[w], a, id);
      forall v | 0 <= v < |t.workers| ensures !Marking(t.workers[v], id) {
        assert v != w ==> t.workers[v] == s.workers[v];
        assert !Marking(s.workers[v], id);
      }
    case Flush(f, a) =>
      assert !Carries(s.flushers[f].pc, id);
      FlusherLeaves(s.shared, s.flushers[f], a, id);
      forall g | 0 <= g < |t.flushers| ensures !Carries(t.flushers[g].pc, id) {
        assert g != f ==> t.flushers[g] == s.flushers[g];
        assert !Carries(s.flushers[g].pc, id);
      }
    case _ =>
  }

  /** No flush finds a stranded counter, however many follow and whatever they do. */
  lemma {:induction false} StrandedStays(s: State, ls: seq<Label>, id: int)
    requires WellFormed(s) && Legal(s, ls) && !Covered(s, id) && !TouchesAlong(s, ls, id)
    ensures !Covered(Exec(s, ls), id) && At(Exec(s, ls).shared.views, id) == At(s.shared.views, id)
    decreases |ls|
  {
    if ls != [] {
      StrandedStep(s, ls[0], id);
      hide Covered;
      hide Apply;
      StrandedStays(Apply(s, ls[0]), ls[1..], id);
    }
  }
}
