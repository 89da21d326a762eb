/**
 Where every tracked event is, in any number of instances, and what graceful
 shutdown guarantees: Run drains the queue, flushes once more and then returns.
 */
module ViewShutdown {
  import opened Sets
  import opened ViewPipeline
  import opened ViewConservation
  import opened ViewMarks

  /* ---------- Every tracked event is in exactly one place ---------- */

  function Handling(pc: WorkerPc, e: Event): nat {
    if (pc.WScript? || pc.WMark?) && pc.event == e then 1 else 0
  }

  /** How often `e` is in the hands of the workers of instance `k`. */
  function InFlight(ws: seq<WorkerPc>, homes: seq<nat>, k: nat, e: Event): nat
    requires |ws| == |homes|
    decreases |ws|
  {
    if ws == [] then 0
    else (if homes[0] == k then Handling(ws[0], e) else 0) + InFlight(ws[1..], homes[1..], k, e)
  }

  lemma {:induction false} InFlightUpdate(ws: seq<WorkerPc>, homes: seq<nat>, w: nat, pc: WorkerPc, k: nat, e: Event)
    requires |ws| == |homes| && w < |ws|
    ensures InFlight(ws[w := pc], homes, k, e) - InFlight(ws, homes, k, e)
         == if homes[w] == k then Handling(pc, e) - Handling(ws[w], e) else 0
    decreases |ws|
  {
    if w > 0 {
      InFlightUpdate(ws[1..], homes[1..], w - 1, pc, k, e);
      assert ws[w := pc][1..] == ws[1..][w - 1 := pc];
    } else {
      assert ws[w := pc][1..] == ws[1..];
    }
  }

  lemma {:induction false} InFlightNone(ws: seq<WorkerPc>, homes: seq<nat>, k: nat, e: Event)
    requires |ws| == |homes|
    requires forall w :: 0 <= w < |ws| ==> Handling(ws[w], e) == 0
    ensures InFlight(ws, homes, k, e) == 0
    decreases |ws|
  {
    if ws != [] {
      InFlightNone(ws[1..], homes[1..], k, e);
    }
  }

  /** A tracked event is dropped, queued, being handled or finished, and the queue is bounded. */
  predicate Accounted(s: State, k: nat, e: Event)
    requires WellFormed(s) && k < |s.insts|
  {
    var i := s.insts[k];
    && i.tracked[e] == i.dropped[e] + multiset(i.queue)[e] + InFlight(s.workers, s.workerHome, k, e) + i.finished[e]
    && |i.queue| <= EVENT_BUFFER
  }

  lemma WorkerAccounts(r: Shared, i: Instance, pc: WorkerPc, a: WorkerAct, e: Event)
    requires WorkerCan(i, pc, a)
    ensures var j, q := WorkerInstance(r, i, pc, a), WorkerNext(r, i, pc, a);
      && j.tracked == i.tracked && j.dropped == i.dropped && |j.queue| <= |i.queue|
      && multiset(j.queue)[e] + Handling(q, e) + j.finished[e]
         == multiset(i.queue)[e] + Handling(pc, e) + i.finished[e]
  {
    if a.Receive? {
      assert i.queue == [i.queue[0]] + i.queue[1..];
    }
  }

  lemma AccountedStep(s: State, l: Label, k: nat, e: Event)
    requires WellFormed(s) && Enabled(s, l) && k < |s.insts| && Accounted(s, k, e)
    ensures Accounted(Apply(s, l), k, e)
  {
    match l
    case Work(w, a) =>
      var i, pc := s.insts[s.workerHome[w]], s.workers[w];
      var q := WorkerNext(s.shared, i, pc, a);
      WorkerAccounts(s.shared, i, pc, a, e);
      InFlightUpdate(s.workers, s.workerHome, w, q, k, e);
    case _ =>
  }

  /** Over every run, with every command allowed to fail: no event is duplicated or forgotten. */
  lemma {:induction false} EveryEventIsAccounted(s: State, ls: seq<Label>, k: nat, e: Event)
    requires WellFormed(s) && Legal(s, ls) && k < |s.insts| && Accounted(s, k, e)
    ensures k < |Exec(s, ls).insts| && Accounted(Exec(s, ls), k, e)
    decreases |ls|
  {
    if ls != [] {
      AccountedStep(s, ls[0], k, e);
      EveryEventIsAccounted(Apply(s, ls[0]), ls[1..], k, e);
    }
  }

  /* ---------- Graceful shutdown ---------- */

  predicate Works(a: FlusherAct) {
    match a
    case Pop(_, out) => out.Ok?
    case GetDel(_, out) => out.Ok?
    case Retry(out) => out.Ok?
    case AddViews(out) => out.Ok?
    case RestoreIncr(_, out) => out.Ok?
    case RestoreMark(out) => out.Ok?
    case _ => true
  }

  /** Nothing is lost, persisted twice or left unmarked, and the commands of the final flush work. */
  predicate Clean(x: Flusher, a: FlusherAct) {
    && !Loses(Flush(0, a)) && !Doubles(Flush(0, a)) && !Unmarks(Flush(0, a))
    && (x.final ==> Works(a))
  }

  /**
   No Track after cancellation, and only failures that the code repairs: a ticker flush may
   be refused SPOP, GETDEL or AddViews so long as restore and the marks take effect, a
   script may be refused, and replies of commands that took effect may be lost where no
   mark depends on them. The final flush works.
   */
  predicate Graceful(s: State, l: Label)
    requires WellFormed(s) && Enabled(s, l)
  {
    match l
    case Track(i, _) => !s.insts[i].cancelled
    case Work(_, _) => !Unmarks(l)
    case Flush(f, a) => Clean(s.flushers[f], a)
    case _ => true
  }

  predicate GracefulRun(s: State, ls: seq<Label>)
    requires WellFormed(s) && Legal(s, ls)
    decreases |ls|
  {
    ls == [] || (Graceful(s, ls[0]) && GracefulRun(Apply(s, ls[0]), ls[1..]))
  }

  /** Every instance has a worker and a flusher. */
  predicate Staffed(s: State)
    requires WellFormed(s)
  {
    forall k :: 0 <= k < |s.insts| ==> k in s.workerHome && k in s.flusherHome
  }

  /** The flusher will still pop: in the ticker's flush or the final one to come, or after a full batch. */
  predicate SpopToCome(x: Flusher) {
    !x.final || x.pc.FPop? || (x.pc.FGet? && x.pc.full) || (x.pc.FAdd? && x.pc.full)
  }

  predicate FlusherSound(x: Flusher) {
    && (x.pc.FIdle? || x.pc.TickerGone? || x.pc.FRestore? || x.pc.FRestoreMark? ==> !x.final)
    && (x.pc.FStopped? ==> x.final)
    && (x.final && x.pc.FGet? ==> x.pc.retry == {})
  }

  predicate SomeSpopToCome(fs: seq<Flusher>) {
    exists f :: 0 <= f < |fs| && SpopToCome(fs[f])
  }

  /** While ids are dirty, some flusher still has an SPOP to come. */
  predicate Winding(s: State) {
    && WellFormed(s) && Staffed(s) && s.shared.lost == map[] && s.shared.doubled == map[]
    && (forall w :: 0 <= w < |s.workers| && s.workers[w].WExited? ==>
          s.insts[s.workerHome[w]].cancelled && s.insts[s.workerHome[w]].queue == [])
    && (forall f :: 0 <= f < |s.flushers| ==> FlusherSound(s.flushers[f]))
    && (forall f :: 0 <= f < |s.flushers| && s.flushers[f].final ==> WorkersExited(s, s.flusherHome[f]))
    && (forall f :: 0 <= f < |s.flushers| && s.flushers[f].pc.TickerGone? ==> s.insts[s.flusherHome[f]].cancelled)
    && (s.shared.dirty != {} ==> SomeSpopToCome(s.flushers))
  }

  lemma CleanShared(r: Shared, x: Flusher, a: FlusherAct)
    requires FlusherCan(r, x, true, true, a) && FlusherSound(x) && Clean(x, a)
    ensures var t := FlusherShared(r, x, a);
      (x.final ==> t.dirty <= r.dirty) && t.lost == r.lost && t.doubled == r.doubled
  {
    SharedGrows(r, x, a, 0);
  }

  lemma CleanFlusher(r: Shared, x: Flusher, a: FlusherAct)
    requires FlusherCan(r, x, true, true, a) && FlusherSound(x) && Clean(x, a)
    ensures FlusherSound(FlusherNext(r, x, a))
    ensures FlusherNext(r, x, a).final ==> x.final || a.StartFinal?
    ensures FlusherNext(r, x, a).pc.TickerGone? ==> a.Quit?
    ensures !x.final ==> SpopToCome(FlusherNext(r, x, a))
  {
  }

  /** The last SPOP of the final flush leaves nothing behind. */
  lemma LastSpop(r: Shared, x: Flusher, a: FlusherAct)
    requires FlusherCan(r, x, true, true, a) && FlusherSound(x) && Clean(x, a) && SpopToCome(x)
    ensures SpopToCome(FlusherNext(r, x, a)) || FlusherShared(r, x, a).dirty == {}
  {
    if a.Pop? && |a.ids| < FLUSH_BATCH {
      SubsetOfSameSize(a.ids, r.dirty);
    }
  }

  /** A worker that is not done belongs to an instance whose final flush has not started. */
  lemma WorkersFlusher(s: State, w: nat)
    requires Winding(s) && w < |s.workers| && !s.workers[w].WExited?
    ensures SomeSpopToCome(s.flushers)
  {
    var k := s.workerHome[w];
    assert k in s.flusherHome;
    var f :| 0 <= f < |s.flusherHome| && s.flusherHome[f] == k;
    assert !WorkersExited(s, k);
    assert SpopToCome(s.flushers[f]);
  }

  lemma WindingWorker(s: State, w: nat, a: WorkerAct)
    requires Winding(s) && Enabled(s, Work(w, a)) && Graceful(s, Work(w, a))
    ensures Winding(Apply(s, Work(w, a)))
  {
    var t := Apply(s, Work(w, a));
    WorkersFlusher(s, w);
    forall f | 0 <= f < |t.flushers| && t.flushers[f].final ensures WorkersExited(t, t.flusherHome[f]) {
      assert WorkersExited(s, s.flusherHome[f]);
    }
  }

  lemma WindingFlusher(s: State, f: nat, a: FlusherAct)
    requires Winding(s) && Enabled(s, Flush(f, a)) && Graceful(s, Flush(f, a))
    ensures Winding(Apply(s, Flush(f, a)))
  {
    var x, t := s.flushers[f], Apply(s, Flush(f, a));
    CleanShared(s.shared, x, a);
    CleanFlusher(s.shared, x, a);
    hide FlusherNext;
    hide FlusherShared;
    forall g | 0 <= g < |t.flushers| && t.flushers[g].final ensures WorkersExited(t, t.flusherHome[g]) {
      assert WorkersExited(s, s.flusherHome[g]);
    }
    if t.shared.dirty != {} {
      var g: nat := f;
      if x.final {
        g :| 0 <= g < |s.flushers| && SpopToCome(s.flushers[g]);
        if g == f {
          LastSpop(s.shared, x, a);
        }
      }
      assert SpopToCome(t.flushers[g]);
    }
  }

  lemma WindingStep(s: State, l: Label)
    requires Winding(s) && Enabled(s, l) && Graceful(s, l)
    ensures Winding(Apply(s, l))
  {
    match l
    case Work(w, a) => WindingWorker(s, w, a);
    case Flush(f, a) => WindingFlusher(s, f, a);
    case _ =>
      var t := Apply(s, l);
      assert forall k :: 0 <= k < |s.insts| ==> (WorkersExited(t, k) <==> WorkersExited(s, k));
  }

  lemma {:induction false} WindingRun(s: State, ls: seq<Label>)
    requires Winding(s) && Legal(s, ls) && GracefulRun(s, ls)
    ensures Winding(Exec(s, ls)) && NoneUnmarks(ls)
    decreases |ls|
  {
    if ls != [] {
      WindingStep(s, ls[0]);
      hide Winding;
      hide Apply;
      WindingRun(Apply(s, ls[0]), ls[1..]);
      assert forall l :: l in ls ==> l == ls[0] || l in ls[1..];
    }
  }

  predicate AllStopped(s: State) {
    forall f :: 0 <= f < |s.flushers| ==> s.flushers[f].pc.FStopped?
  }

  /** When every flusher has stopped, every worker has exited and nothing is dirty. */
  lemma StoppedState(t: State)
    requires Winding(t) && AllStopped(t)
    ensures t.shared.dirty == {} && forall w :: 0 <= w < |t.workers| ==> t.workers[w].WExited?
    ensures forall k :: 0 <= k < |t.insts| ==> t.insts[k].queue == []
  {
    forall w | 0 <= w < |t.workers| ensures t.workers[w].WExited? {
      if !t.workers[w].WExited? {
        WorkersFlusher(t, w);
      }
    }
    forall k | 0 <= k < |t.insts| ensures t.insts[k].queue == [] {
      assert k in t.workerHome;
      var w :| 0 <= w < |t.workerHome| && t.workerHome[w] == k;
      assert t.workers[w].WExited?;
    }
  }

  lemma StoppedViews(t: State, id: int)
    requires Winding(t) && AllStopped(t) && Balance(t, id) && Covered(t, id)
    ensures At(t.shared.views, id) == 0 && At(t.shared.store, id) == At(t.shared.counted, id)
  {
    StoppedState(t);
    HeldZero(t.flushers, id);
  }

  lemma ShutdownLeavesNothing(s: State, ls: seq<Label>, id: int)
    requires Initial(s) && Legal(s, ls) && NoneUnmarks(ls)
    requires Winding(Exec(s, ls)) && AllStopped(Exec(s, ls))
    ensures var r := Exec(s, ls).shared; At(r.views, id) == 0 && At(r.store, id) == At(r.counted, id)
  {
    InitialIsConserved(s);
    assert Covered(s, id);
    hide Covered;
    hide Balance;
    hide Initial;
    hide Winding;
    hide AllStopped;
    ViewsAreConserved(s, ls);
    NoCounterIsStranded(s, ls, id);
    StoppedViews(Exec(s, ls), id);
  }

  lemma ShutdownHandlesEverything(s: State, ls: seq<Label>, k: nat, e: Event)
    requires Initial(s) && Legal(s, ls) && k < |s.insts|
    requires Winding(Exec(s, ls)) && AllStopped(Exec(s, ls))
    ensures k < |Exec(s, ls).insts|
    ensures var i := Exec(s, ls).insts[k]; i.tracked[e] == i.dropped[e] + i.finished[e]
  {
    var t := Exec(s, ls);
    InFlightNone(s.workers, s.workerHome, k, e);
    EveryEventIsAccounted(s, ls, k, e);
    StoppedState(t);
    InFlightNone(t.workers, t.workerHome, k, e);
  }

  /**
   Any number of instances: when Run has returned in all of them after a graceful
   shutdown, every queue and the dirty set are empty, every event that was not
   dropped was handled exactly once, and the store holds exactly the views counted.
   */
  lemma GracefulShutdownPersistsEverything(s: State, ls: seq<Label>)
    requires Initial(s) && Staffed(s)
    requires Legal(s, ls) && GracefulRun(s, ls) && AllStopped(Exec(s, ls))
    ensures var t := Exec(s, ls);
      && t.shared.dirty == {} && |t.insts| == |s.insts|
      && (forall k :: 0 <= k < |t.insts| ==>
            t.insts[k].queue == [] && t.insts[k].tracked == t.insts[k].dropped + t.insts[k].finished)
      && (forall id :: At(t.shared.views, id) == 0 && At(t.shared.store, id) == At(t.shared.counted, id))
  {
    var t := Exec(s, ls);
    InitiallyWinding(s);
    WindingRun(s, ls);
    StoppedState(t);
    InstancesStay(s, ls);
    forall k, e: Event | 0 <= k < |t.insts|
      ensures t.insts[k].tracked[e] == t.insts[k].dropped[e] + t.insts[k].finished[e]
    {
      ShutdownHandlesEverything(s, ls, k, e);
    }
    forall id ensures At(t.shared.views, id) == 0 && At(t.shared.store, id) == At(t.shared.counted, id) {
      ShutdownLeavesNothing(s, ls, id);
    }
  }

  lemma InitiallyWinding(s: State)
    requires Initial(s) && Staffed(s)
    ensures Winding(s)
  {
  }

  lemma {:induction false} InstancesStay(s: State, ls: seq<Label>)
    requires WellFormed(s) && Legal(s, ls)
    ensures |Exec(s, ls).insts| == |s.insts|
    decreases |ls|
  {
    if ls != [] {
      InstancesStay(Apply(s, ls[0]), ls[1..]);
    }
  }
}
