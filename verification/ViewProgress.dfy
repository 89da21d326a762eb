/**
 No process of the pipeline is ever stuck: in every run, a worker that has events or is
 told to stop can move, and so can a flusher that is not waiting for workers, with
 commands that work. So a shutdown can always be carried to its end.
 */
module ViewProgress {
  import opened Sets
  import opened ViewPipeline
  import opened ViewShutdown

  /** A call of flush has something to store or to put back where it is about to. */
  predicate Busy(x: Flusher) {
    && (x.pc.FAdd? ==> x.pc.deltas != map[])
    && (x.pc.FRestore? ==> x.pc.rest != map[])
  }

  predicate AllBusy(s: State) {
    forall f :: 0 <= f < |s.flushers| ==> Busy(s.flushers[f])
  }

  lemma BusyStep(s: State, l: Label)
    requires WellFormed(s) && Enabled(s, l) && AllBusy(s)
    ensures AllBusy(Apply(s, l))
  {
    match l
    case Flush(f, a) =>
      StaysBusy(s.shared, s.flushers[f], a);
      var t := Apply(s, l);
      assert forall g :: 0 <= g < |t.flushers| && g != f ==> t.flushers[g] == s.flushers[g];
    case _ =>
  }

  lemma StaysBusy(r: Shared, x: Flusher, a: FlusherAct)
    requires FlusherCan(r, x, true, true, a) && Busy(x)
    ensures Busy(FlusherNext(r, x, a))
  {
  }

  lemma {:induction false} BusyRun(s: State, ls: seq<Label>)
    requires WellFormed(s) && Legal(s, ls) && AllBusy(s)
    ensures AllBusy(Exec(s, ls))
    decreases |ls|
  {
    if ls != [] {
      BusyStep(s, ls[0]);
      hide Apply;
      hide AllBusy;
      BusyRun(Apply(s, ls[0]), ls[1..]);
    }
  }

  /** What a worker does next, with commands that work. */
  lemma WorkerMoves(i: Instance, pc: WorkerPc) returns (a: WorkerAct)
    requires !pc.WExited? && (pc.WIdle? ==> i.queue != [] || i.cancelled)
    ensures WorkerCan(i, pc, a) && (a.Script? || a.Mark? ==> a.out == Ok)
  {
    a := match pc
         case WIdle => if i.queue != [] then Receive else Exit
         case WScript(_) => Script(Ok)
         case WMark(_) => Mark(Ok)
         case WExited => Exit;
  }

  lemma FlusherMoves(r: Shared, x: Flusher, cancelled: bool, workersExited: bool) returns (a: FlusherAct)
    requires Busy(x) && !x.pc.FStopped? && (x.pc.TickerGone? ==> workersExited)
    ensures FlusherCan(r, x, cancelled, workersExited, a) && Works(a)
    ensures x.pc.FIdle? && cancelled ==> a == Quit
  {
    match x.pc
    case FIdle => a := if cancelled then Quit else Start;
    case FPop =>
      var n := Min(FLUSH_BATCH, |r.dirty|);
      SubsetOfSize(r.dirty, n);
      var ids :| ids <= r.dirty && |ids| == n;
      a := Pop(ids, Ok);
    case FGet(full, todo, deltas, retry) =>
      a := Retry(Ok);
      if todo != {} {
        a := GetDel(Pick(todo), Ok);
      }
    case FAdd(_, _) => a := AddViews(Ok);
    case FRestore(rest) => a := RestoreIncr(Pick(rest.Keys), Ok);
    case FRestoreMark(_, _) => a := RestoreMark(Ok);
    case TickerGone => a := StartFinal;
    case FStopped => a := Start;
  }

  /** In every reachable state: a worker with work, or told to stop, can move. */
  lemma WorkersNeverStuck(s: State, ls: seq<Label>, w: nat) returns (a: WorkerAct)
    requires Initial(s) && Legal(s, ls) && w < |Exec(s, ls).workers| && !Exec(s, ls).workers[w].WExited?
    requires var t := Exec(s, ls);
      t.workers[w].WIdle? ==> t.insts[t.workerHome[w]].queue != [] || t.insts[t.workerHome[w]].cancelled
    ensures Enabled(Exec(s, ls), Work(w, a))
  {
    var t := Exec(s, ls);
    a := WorkerMoves(t.insts[t.workerHome[w]], t.workers[w]);
  }

  /** In every reachable state: a flusher that has not stopped and does not wait for workers can move. */
  lemma FlushersNeverStuck(s: State, ls: seq<Label>, f: nat) returns (a: FlusherAct)
    requires Initial(s) && Legal(s, ls) && f < |Exec(s, ls).flushers| && !Exec(s, ls).flushers[f].pc.FStopped?
    requires var t := Exec(s, ls);
      t.flushers[f].pc.TickerGone? ==> WorkersExited(t, t.flusherHome[f])
    ensures Enabled(Exec(s, ls), Flush(f, a)) && Works(a)
  {
    BusyRun(s, ls);
    var t := Exec(s, ls);
    assert Busy(t.flushers[f]);
    a := FlusherMoves(t.shared, t.flushers[f], t.insts[t.flusherHome[f]].cancelled, WorkersExited(t, t.flusherHome[f]));
  }

  /** Once every instance is cancelled, some process can move until every flusher has stopped. */
  lemma ShutdownNeverStuck(s: State, ls: seq<Label>) returns (l: Label)
    requires Initial(s) && Legal(s, ls) && !AllStopped(Exec(s, ls))
    requires var t := Exec(s, ls); forall k :: 0 <= k < |t.insts| ==> t.insts[k].cancelled
    ensures Enabled(Exec(s, ls), l) && (l.Work? || l.Flush?)
  {
    var t := Exec(s, ls);
    var f :| 0 <= f < |t.flushers| && !t.flushers[f].pc.FStopped?;
    if t.flushers[f].pc.TickerGone? && !WorkersExited(t, t.flusherHome[f]) {
      var w :| 0 <= w < |t.workers| && t.workerHome[w] == t.flusherHome[f] && !t.workers[w].WExited?;
      var a := WorkersNeverStuck(s, ls, w);
      l := Work(w, a);
    } else {
      var a := FlushersNeverStuck(s, ls, f);
      l := Flush(f, a);
    }
  }
}
