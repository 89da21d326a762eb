/**
 When flush terminates, exactly. Fix the ids whose GETDEL may fail, now and then or for
 ever; let SPOP pick what it likes and every command but a GETDEL of another id end as
 it likes. A call that runs alone makes a bounded number of moves if and only if fewer
 than a batch of those ids are dirty.
 */
module FlushTermination {
  import opened Sets
  import opened ViewPipeline
  import opened FlushTrace

  /** GETDEL may fail for the ids of `bad` only. */
  predicate Obeys(bad: set<int>, a: FlusherAct) {
    a.GetDel? && !a.out.Ok? ==> a.id in bad
  }

  predicate AllObey(bad: set<int>, acts: seq<FlusherAct>) {
    forall i :: 0 <= i < |acts| ==> Obeys(bad, acts[i])
  }

  /** Some bound holds for every way the call can go on. */
  ghost predicate Terminates(h: Here, bad: set<int>) {
    exists n: nat :: Bounded(h, bad, n)
  }

  ghost predicate Bounded(h: Here, bad: set<int>, n: nat) {
    forall acts :: Alone(h, acts) && AllObey(bad, acts) ==> |acts| <= n
  }

  /* ---------- Fewer than a batch of ids that may fail: a measure ---------- */

  /** The ids that may be dirty when the present batch is over. */
  function Returning(h: Here, bad: set<int>): set<int> {
    match h.flusher.pc
    case FGet(_, todo, _, retry) => h.shared.dirty + retry + todo * bad
    case _ => h.shared.dirty
  }

  /** The call may come back to SPOP. */
  predicate MayReturn(pc: FlusherPc) {
    pc.FPop? || (pc.FGet? && pc.full) || (pc.FAdd? && pc.full)
  }

  /** The moves that remain in the present batch. */
  function InBatch(pc: FlusherPc): nat {
    match pc
    case FGet(_, todo, deltas, _) => 3 * |todo| + 2 * |deltas| + 4
    case FAdd(_, deltas) => 2 * |deltas| + 3
    case FRestore(rest) => 2 * |rest| + 1
    case FRestoreMark(_, rest) => 2 * |rest| + 2
    case _ => 0
  }

  /** More than the moves of any one batch. */
  const ROUND: nat := 4 * FLUSH_BATCH

  function Remaining(h: Here, bad: set<int>): nat {
    InBatch(h.flusher.pc) + if MayReturn(h.flusher.pc) then ROUND * |Returning(h, bad)| + ROUND else 0
  }

  /** Too few ids that may fail to fill a batch; deltas are of ids already read. */
  predicate Few(h: Here, bad: set<int>) {
    && (MayReturn(h.flusher.pc) ==> |Returning(h, bad) * bad| < FLUSH_BATCH)
    && (h.flusher.pc.FGet? ==> h.flusher.pc.todo !! h.flusher.pc.deltas.Keys)
  }

  /** A full batch with a healthy id in it takes at least one id out for good. */
  lemma PoppedSets(d: set<int>, ids: set<int>, bad: set<int>)
    requires ids <= d && |d * bad| < FLUSH_BATCH
    ensures (d - ids + ids * bad) * bad == d * bad
    ensures |ids| == FLUSH_BATCH ==> ROUND * |d - ids + ids * bad| + ROUND <= ROUND * |d|
  {
    assert (d - ids + ids * bad) * bad == d * bad;
    Smaller(ids * bad, d * bad);
    assert |d - ids| == |d| - |ids|;
    assert |d - ids + ids * bad| <= |d - ids| + |ids * bad|;
    if |ids| == FLUSH_BATCH {
      Rounds(|d - ids + ids * bad| + 1, |d|);
    }
  }

  lemma PopNext(h: Here, ids: set<int>, out: Outcome)
    requires FlusherCan(h.shared, h.flusher, true, true, Pop(ids, out))
    ensures ids <= h.shared.dirty && |ids| <= FLUSH_BATCH
    ensures if out.Ok? && ids != {} then
              && Next(h, Pop(ids, out)).shared.dirty == h.shared.dirty - ids
              && Next(h, Pop(ids, out)).flusher.pc == FGet(|ids| == FLUSH_BATCH, ids, map[], {})
            else Next(h, Pop(ids, out)).flusher.pc == Return(h.flusher)
  {
  }

  lemma PopRemaining(h: Here, bad: set<int>, ids: set<int>, out: Outcome)
    requires FlusherCan(h.shared, h.flusher, true, true, Pop(ids, out)) && Few(h, bad)
    ensures var t := Next(h, Pop(ids, out)); Few(t, bad) && Remaining(t, bad) < Remaining(h, bad)
  {
    var d, t := h.shared.dirty, Next(h, Pop(ids, out));
    PoppedSets(d, ids, bad);
    PopNext(h, ids, out);
    assert Remaining(h, bad) == ROUND * |d| + ROUND;
    hide FlusherCan;
    hide Next;
    if out.Ok? && ids != {} {
      PoppedRemaining(t, bad, d, ids);
    }
  }

  lemma PoppedRemaining(t: Here, bad: set<int>, d: set<int>, ids: set<int>)
    requires t.flusher.pc == FGet(|ids| == FLUSH_BATCH, ids, map[], {}) && t.shared.dirty == d - ids
    requires ids <= d && |ids| <= FLUSH_BATCH && |d * bad| < FLUSH_BATCH
    ensures Few(t, bad) && Remaining(t, bad) < ROUND * |d| + ROUND
  {
    PoppedSets(d, ids, bad);
    assert Returning(t, bad) == d - ids + ids * bad;
    hide Returning;
    Rounds(0, |d|);
    assert InBatch(t.flusher.pc) == 3 * |ids| + 4;
    hide InBatch;
  }

  lemma Rounds(a: nat, b: nat)
    requires a <= b
    ensures ROUND * a <= ROUND * b
  {
  }

  lemma GetDelNext(h: Here, id: int, out: Outcome)
    requires FlusherCan(h.shared, h.flusher, true, true, GetDel(id, out))
    ensures h.flusher.pc.FGet? && id in h.flusher.pc.todo
    ensures var FGet(full, todo, deltas, retry) := h.flusher.pc;
            var t, n := Next(h, GetDel(id, out)), At(h.shared.views, id);
      && t.shared.dirty == h.shared.dirty
      && t.flusher.pc == FGet(full, todo - {id}, if out.Ok? && n > 0 then deltas[id := n] else deltas,
                              if out.Ok? then retry else retry + {id})
  {
  }

  lemma GetDelRemaining(h: Here, bad: set<int>, id: int, out: Outcome)
    requires FlusherCan(h.shared, h.flusher, true, true, GetDel(id, out)) && Few(h, bad) && Obeys(bad, GetDel(id, out))
    ensures var t := Next(h, GetDel(id, out)); Few(t, bad) && Remaining(t, bad) < Remaining(h, bad)
  {
    GetDelNext(h, id, out);
    hide FlusherCan;
    hide Next;
    var FGet(full, todo, deltas, retry) := h.flusher.pc;
    var t, n := Next(h, GetDel(id, out)), At(h.shared.views, id);
    assert Returning(t, bad) <= Returning(h, bad);
    Smaller(Returning(t, bad), Returning(h, bad));
    Smaller(Returning(t, bad) * bad, Returning(h, bad) * bad);
    Rounds(|Returning(t, bad)|, |Returning(h, bad)|);
    hide Returning;
    hide At;
    assert |todo - {id}| == |todo| - 1;
    assert id !in deltas && |deltas[id := n]| == |deltas| + 1;
  }

  lemma RetryRemaining(h: Here, bad: set<int>, out: Outcome)
    requires FlusherCan(h.shared, h.flusher, true, true, Retry(out)) && Few(h, bad)
    ensures var t := Next(h, Retry(out)); Few(t, bad) && Remaining(t, bad) < Remaining(h, bad)
  {
    var t := Next(h, Retry(out));
    Smaller(t.shared.dirty, Returning(h, bad));
    Smaller(t.shared.dirty * bad, Returning(h, bad) * bad);
    Rounds(|t.shared.dirty|, |Returning(h, bad)|);
  }

  lemma RestoreIncrRemaining(h: Here, bad: set<int>, id: int, out: Outcome)
    requires FlusherCan(h.shared, h.flusher, true, true, RestoreIncr(id, out))
    ensures var t := Next(h, RestoreIncr(id, out)); Few(t, bad) && Remaining(t, bad) < Remaining(h, bad)
  {
    assert |h.flusher.pc.rest - {id}| == |h.flusher.pc.rest| - 1;
  }

  lemma OtherRemaining(h: Here, bad: set<int>, a: FlusherAct)
    requires IsCommand(a) && FlusherCan(h.shared, h.flusher, true, true, a) && Few(h, bad)
    requires !a.Pop? && !a.GetDel? && !a.Retry?
    ensures Few(Next(h, a), bad) && Remaining(Next(h, a), bad) < Remaining(h, bad)
  {
    if a.RestoreIncr? {
      RestoreIncrRemaining(h, bad, a.id, a.out);
      hide Next;
    }
  }

  /** Every command uses up one of the remaining moves at least. */
  lemma StepRemaining(h: Here, bad: set<int>, a: FlusherAct)
    requires IsCommand(a) && FlusherCan(h.shared, h.flusher, true, true, a) && Few(h, bad) && Obeys(bad, a)
    ensures Few(Next(h, a), bad) && Remaining(Next(h, a), bad) < Remaining(h, bad)
  {
    hide Next;
    hide Few;
    hide Remaining;
    match a
    case Pop(ids, out) => PopRemaining(h, bad, ids, out);
    case GetDel(id, out) => GetDelRemaining(h, bad, id, out);
    case Retry(out) => RetryRemaining(h, bad, out);
    case _ => OtherRemaining(h, bad, a);
  }

  lemma {:induction false} RunRemaining(h: Here, bad: set<int>, acts: seq<FlusherAct>)
    requires Alone(h, acts) && AllObey(bad, acts) && Few(h, bad)
    ensures |acts| <= Remaining(h, bad)
    decreases |acts|
  {
    if acts != [] {
      assert Obeys(bad, acts[0]);
      StepRemaining(h, bad, acts[0]);
      assert forall i :: 0 <= i < |acts[1..]| ==> acts[1..][i] == acts[i + 1];
      RunRemaining(Next(h, acts[0]), bad, acts[1..]);
    }
  }

  /* ---------- A batch of ids that may fail: a loop ---------- */

  /** The GETDELs of `todo` all fail: nothing changes but the position of the call. */
  lemma {:induction false} ReadsFail(bad: set<int>, h: Here, acts: seq<FlusherAct>,
                                     r: Shared, final: bool, todo: set<int>, retry: set<int>)
    returns (acts': seq<FlusherAct>)
    requires Reaches(h, acts, Here(r, Flusher(final, FGet(true, todo, map[], retry))))
    requires AllObey(bad, acts) && todo <= bad
    ensures Reaches(h, acts', Here(r, Flusher(final, FGet(true, {}, map[], retry + todo))))
    ensures AllObey(bad, acts') && |acts| <= |acts'|
    decreases todo
  {
    hide Reaches;
    if todo == {} {
      assert retry + todo == retry;
      acts' := acts;
    } else {
      var id := Pick(todo);
      var x := Flusher(final, FGet(true, todo, map[], retry));
      RejectedGetDel(r, x, id);
      hide FlusherShared;
      hide FlusherNext;
      Extend(h, acts, Here(r, x), GetDel(id, Rejected));
      acts' := ReadsFail(bad, h, acts + [GetDel(id, Rejected)], r, final, todo - {id}, retry + {id});
      assert retry + {id} + (todo - {id}) == retry + todo;
    }
  }

  lemma RejectedGetDel(r: Shared, x: Flusher, id: int)
    requires x.pc.FGet? && id in x.pc.todo
    ensures Next(Here(r, x), GetDel(id, Rejected))
         == Here(r, x.(pc := FGet(x.pc.full, x.pc.todo - {id}, x.pc.deltas, x.pc.retry + {id})))
  {
  }

  /** With a batch of ids to pop whose GETDELs fail, the loop comes back to the very same state. */
  lemma FailingBatchLoops(r: Shared, final: bool, bad: set<int>) returns (acts: seq<FlusherAct>)
    requires FLUSH_BATCH <= |r.dirty * bad|
    ensures acts != [] && AllObey(bad, acts)
    ensures Reaches(Here(r, Flusher(final, FPop)), acts, Here(r, Flusher(final, FPop)))
  {
    var h := Here(r, Flusher(final, FPop));
    SubsetOfSize(r.dirty * bad, FLUSH_BATCH);
    var ids :| ids <= r.dirty * bad && |ids| == FLUSH_BATCH;
    Smaller(ids, r.dirty);
    var u := r.(dirty := r.dirty - ids);
    NoActs(h);
    Extend(h, [], h, Pop(ids, Ok));
    assert [] + [Pop(ids, Ok)] == [Pop(ids, Ok)];
    assert Next(h, Pop(ids, Ok)) == Here(u, Flusher(final, FGet(true, ids, map[], {})));
    hide Reaches;
    acts := ReadsFail(bad, h, [Pop(ids, Ok)], u, final, ids, {});
    assert {} + ids == ids && u.dirty + ids == r.dirty;
    MarkedAgain(u, final, ids);
    hide Next;
    Extend(h, acts, Here(u, Flusher(final, FGet(true, {}, map[], ids))), Retry(Ok));
    acts := acts + [Retry(Ok)];
  }

  lemma MarkedAgain(u: Shared, final: bool, ids: set<int>)
    ensures FlusherCan(u, Flusher(final, FGet(true, {}, map[], ids)), true, true, Retry(Ok))
    ensures Next(Here(u, Flusher(final, FGet(true, {}, map[], ids))), Retry(Ok))
         == Here(u.(dirty := u.dirty + ids), Flusher(final, FPop))
  {
  }

  lemma {:induction false} ReachesConcat(h: Here, a: seq<FlusherAct>, t: Here, b: seq<FlusherAct>, u: Here)
    requires Reaches(h, a, t) && Reaches(t, b, u)
    ensures Reaches(h, a + b, u)
    decreases |a|
  {
    if a == [] {
      assert a + b == b;
    } else {
      assert (a + b)[0] == a[0] && (a + b)[1..] == a[1..] + b;
      hide Next;
      hide FlusherCan;
      ReachesConcat(Next(h, a[0]), a[1..], t, b, u);
    }
  }

  /** The loop taken again and again exceeds any bound. */
  lemma {:induction false} LoopAgain(h: Here, bad: set<int>, loop: seq<FlusherAct>, n: nat)
    returns (acts: seq<FlusherAct>)
    requires loop != [] && AllObey(bad, loop) && Reaches(h, loop, h)
    ensures Reaches(h, acts, h) && AllObey(bad, acts) && n <= |acts|
  {
    hide Reaches;
    if n == 0 {
      acts := loop;
    } else {
      acts := LoopAgain(h, bad, loop, n - 1);
      ReachesConcat(h, loop, h, acts, h);
      acts := loop + acts;
    }
  }

  /**
   flush alone terminates, whatever SPOP picks and whatever other commands fail, if and
   only if fewer than 1000 dirty ids have a GETDEL that may fail.
   */
  lemma TerminatesIff(r: Shared, final: bool, bad: set<int>)
    ensures Terminates(Here(r, Flusher(final, FPop)), bad) <==> |r.dirty * bad| < 1000
  {
    var h := Here(r, Flusher(final, FPop));
    if |r.dirty * bad| < FLUSH_BATCH {
      forall acts | Alone(h, acts) && AllObey(bad, acts) ensures |acts| <= Remaining(h, bad) {
        RunRemaining(h, bad, acts);
      }
      assert Bounded(h, bad, Remaining(h, bad));
    } else {
      forall n: nat ensures !Bounded(h, bad, n) {
        var loop := FailingBatchLoops(r, final, bad);
        var acts := LoopAgain(h, bad, loop, n + 1);
        assert Alone(h, acts);
      }
    }
  }
}
