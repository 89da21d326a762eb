/**
 No positive counter is stranded: Redis keeps a link's pending views in one key and
 the set of links to flush in another, written by separate commands. This module
 proves that a positive counter always has somebody who will put its id into the
 dirty set, unless one of five named faults drops the mark.
 */
module ViewMarks {
  import opened Wrappers
  import opened ViewPipeline

  predicate Marking(pc: WorkerPc, id: int) {
    pc.WMark? && pc.event.link == id
  }

  /** A flusher answers for an id until its GETDEL succeeds, or until it is marked again. */
  predicate Carries(pc: FlusherPc, id: int) {
    || (pc.FGet? && (id in pc.todo || id in pc.retry))
    || (pc.FRestoreMark? && pc.id == id)
  }

  predicate AnyMarking(ws: seq<WorkerPc>, id: int) {
    exists w :: 0 <= w < |ws| && Marking(ws[w], id)
  }

  predicate AnyCarries(fs: seq<Flusher>, id: int) {
    exists f :: 0 <= f < |fs| && Carries(fs[f].pc, id)
  }

  predicate Covered(s: State, id: int) {
    At(s.shared.views, id) > 0 ==>
      id in s.shared.dirty || AnyMarking(s.workers, id) || AnyCarries(s.flushers, id)
  }

  /** The five faults that forget a mark. */
  datatype MarkFault = LostScript | RefusedMark | LostPop | RefusedRetry | RefusedRestoreMark

  function FaultOf(l: Label): Option<MarkFault> {
    match l
    case Work(_, Script(out)) => if out.Lost? then Some(LostScript) else None
    case Work(_, Mark(out)) => if out.Rejected? then Some(RefusedMark) else None
    case Flush(_, Pop(_, out)) => if out.Lost? then Some(LostPop) else None
    case Flush(_, Retry(out)) => if out.Rejected? then Some(RefusedRetry) else None
    case Flush(_, RestoreMark(out)) => if out.Rejected? then Some(RefusedRestoreMark) else None
    case _ => None
  }

  predicate Unmarks(l: Label) {
    FaultOf(l).Some?
  }

  lemma WorkerCovers(r: Shared, i: Instance, pc: WorkerPc, a: WorkerAct, id: int)
    requires WorkerCan(i, pc, a) && !Unmarks(Work(0, a))
    ensures var t, q := WorkerShared(r, i, pc, a), WorkerNext(r, i, pc, a);
      && r.dirty <= t.dirty
      && (At(t.views, id) > At(r.views, id) ==> Marking(q, id))
      && (Marking(pc, id) ==> id in t.dirty || Marking(q, id))
  {
  }

  lemma GetDelCovers(r: Shared, x: Flusher, k: int, out: Outcome, id: int)
    requires x.pc.FGet? && k in x.pc.todo
    ensures var t, y := FlusherShared(r, x, GetDel(k, out)), FlusherNext(r, x, GetDel(k, out));
      && At(t.views, id) <= At(r.views, id)
      && (id in r.dirty || Carries(x.pc, id) ==> At(t.views, id) == 0 || id in t.dirty || Carries(y.pc, id))
  {
  }

  lemma FlusherCovers(r: Shared, x: Flusher, a: FlusherAct, id: int)
    requires FlusherCan(r, x, true, true, a) && !Unmarks(Flush(0, a))
    ensures var t, y := FlusherShared(r, x, a), FlusherNext(r, x, a);
      && (At(t.views, id) > At(r.views, id) ==> Carries(y.pc, id))
      && (id in r.dirty || Carries(x.pc, id) ==> At(t.views, id) == 0 || id in t.dirty || Carries(y.pc, id))
  {
    match a
    case GetDel(k, out) => GetDelCovers(r, x, k, out, id);
    case _ =>
  }

  lemma CoveredStep(s: State, l: Label, id: int)
    requires WellFormed(s) && Enabled(s, l) && Covered(s, id) && !Unmarks(l)
    ensures Covered(Apply(s, l), id)
  {
    var t := Apply(s, l);
    match l
    case Work(w, a) =>
      WorkerCovers(s.shared, s.insts[s.workerHome[w]], s.workers[w], a, id);
      assert Marking(t.workers[w], id) ==> AnyMarking(t.workers, id);
      forall v | 0 <= v < |s.workers| && v != w && Marking(s.workers[v], id) ensures AnyMarking(t.workers, id) {
        assert Marking(t.workers[v], id);
      }
    case Flush(f, a) =>
      FlusherCovers(s.shared, s.flushers[f], a, id);
      assert Carries(t.flushers[f].pc, id) ==> AnyCarries(t.flushers, id);
      forall g | 0 <= g < |s.flushers| && g != f && Carries(s.flushers[g].pc, id) ensures AnyCarries(t.flushers, id) {
        assert Carries(t.flushers[g].pc, id);
      }
    case _ =>
  }

  ghost predicate NoneUnmarks(ls: seq<Label>) {
    forall l :: l in ls ==> !Unmarks(l)
  }

  /** In every run without those faults, every positive counter is on its way to the dirty set. */
  lemma {:induction false} NoCounterIsStranded(s: State, ls: seq<Label>, id: int)
    requires WellFormed(s) && Covered(s, id) && Legal(s, ls) && NoneUnmarks(ls)
    ensures Covered(Exec(s, ls), id)
    decreases |ls|
  {
    if ls != [] {
      assert ls[0] in ls && forall l :: l in ls[1..] ==> l in ls;
      CoveredStep(s, ls[0], id);
      NoCounterIsStranded(Apply(s, ls[0]), ls[1..], id);
    }
  }
}
