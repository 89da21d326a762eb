/**
 The flush loop itself, as the imperative code runs it, proved against two
 specifications. Whatever fails and whatever other processes do between its
 commands, it makes the moves of one flusher of the transition system, so every
 invariant proved there covers it. And run alone, it moves a set of counters to
 the store and leaves all others as they were.
 */
module FlushLoop {
  import opened Sets
  import opened ViewPipeline
  import opened ViewConservation
  import opened FlushTrace

  /* ---------- What one call does ---------- */

  /** How each command ends, by batch number and link id, and which batches nobody else interferes with. */
  datatype Environment = Environment(
    pop: nat -> Outcome,
    getDel: (nat, int) -> Outcome,
    retry: nat -> Outcome,
    addViews: nat -> Outcome,
    incr: int -> Outcome,
    mark: int -> Outcome,
    alone: nat -> bool)

  ghost predicate AllAlone(o: Environment) {
    forall k: nat :: o.alone(k)
  }

  /**
   Nobody interferes, errors have no effect, and marks and restore do not fail. SPOP,
   GETDEL and AddViews may still fail at any batch.
   */
  ghost predicate Tame(o: Environment) {
    && AllAlone(o)
    && (forall k: nat :: !o.pop(k).Lost? && o.retry(k).Ok? && !o.addViews(k).Lost?)
    && (forall k: nat, id: int :: !o.getDel(k, id).Lost?)
    && (forall id: int :: o.incr(id).Ok? && o.mark(id).Ok?)
  }

  /** No GETDEL of batch `k` fails. */
  ghost predicate ReadsWork(o: Environment, k: nat) {
    forall id: int :: o.getDel(k, id).Ok?
  }

  ghost predicate AllReadsWork(o: Environment) {
    forall k: nat :: ReadsWork(o, k)
  }

  /** The ids among `ids` whose GETDEL fails in batch `k`. */
  ghost function Failing(o: Environment, k: nat, ids: set<int>): set<int> {
    set id | id in ids && !o.getDel(k, id).Ok?
  }

  /**
   From batch `k` on, flush makes progress: nobody refills the dirty set, and fewer than
   a batch of ids fail their GETDEL, of the dirty ones if nobody interfered before.
   */
  ghost predicate Calm(o: Environment, k: nat, dirty: set<int>) {
    && o.alone(k)
    && forall ids: set<int> :: (AllAlone(o) ==> ids <= dirty) ==> |Failing(o, k, ids)| < FLUSH_BATCH
  }

  lemma {:induction false} SumMinus(m: Tally, ids: set<int>, id: int)
    requires id in ids
    ensures Sum(m, ids) == At(m, id) + Sum(m, ids - {id})
    decreases ids
  {
    var k := Pick(ids);
    if k != id {
      SumMinus(m, ids - {k}, id);
      SumMinus(m, ids - {id}, k);
      assert ids - {k} - {id} == ids - {id} - {k};
    }
  }

  lemma {:induction false} SumDisjoint(m: Tally, d: Tally, a: set<int>, b: set<int>)
    requires a !! b && forall id :: id in b ==> At(d, id) == At(m, id)
    ensures Sum(m, a + b) == Sum(m, a) + Sum(d, b)
    decreases b
  {
    if b == {} {
      assert a + b == a;
    } else {
      var id := Pick(b);
      SumMinus(m, a + b, id);
      SumMinus(d, b, id);
      assert a + b - {id} == a + (b - {id});
      SumDisjoint(m, d, a, b - {id});
    }
  }

  function Positive(m: Tally, ids: set<int>): set<int> {
    set id | id in ids && At(m, id) > 0
  }

  /** The positive counters of `r` whose ids are no longer dirty in `t`. */
  function Gone(r: Shared, t: Shared): set<int> {
    Positive(r.views, r.dirty - t.dirty)
  }

  /**
   From `r` to `t`: every counter whose id left the dirty set went to the store,
   every other counter and stored count is unchanged, and `total` is what moved.
   */
  ghost predicate Progress(r: Shared, t: Shared, total: nat) {
    && t.dirty <= r.dirty
    && (forall id :: At(t.store, id) == At(r.store, id) + if id in Gone(r, t) then At(r.views, id) else 0)
    && (forall id :: At(t.views, id) == if id in Gone(r, t) then 0 else At(r.views, id))
    && total == Sum(r.views, Gone(r, t))
  }

  lemma ProgressRefl(t: Shared)
    ensures Progress(t, t, 0)
  {
    assert Gone(t, t) == {};
  }

  lemma ProgressTrans(r: Shared, t: Shared, u: Shared, a: nat, b: nat)
    requires Progress(r, t, a) && Progress(t, u, b)
    ensures Progress(r, u, a + b)
  {
    forall id ensures id in Gone(r, u) <==> id in Gone(r, t) || id in Gone(t, u) {
      assert At(t.views, id) == if id in Gone(r, t) then 0 else At(r.views, id);
    }
    assert Gone(r, u) == Gone(r, t) + Gone(t, u);
    forall id | id in Gone(t, u) ensures id !in Gone(r, t) && At(t.views, id) == At(r.views, id) {
      assert At(t.views, id) == if id in Gone(r, t) then 0 else At(r.views, id);
    }
    SumDisjoint(r.views, t.views, Gone(r, t), Gone(t, u));
    forall id
      ensures At(u.store, id) == At(r.store, id) + if id in Gone(r, u) then At(r.views, id) else 0
      ensures At(u.views, id) == if id in Gone(r, u) then 0 else At(r.views, id)
    {
      assert At(t.store, id) == At(r.store, id) + if id in Gone(r, t) then At(r.views, id) else 0;
      assert At(u.store, id) == At(t.store, id) + if id in Gone(t, u) then At(t.views, id) else 0;
      assert At(u.views, id) == if id in Gone(t, u) then 0 else At(t.views, id);
    }
  }

  /** The counters of `got` are popped, read and reset; `deltas` holds the positive ones. */
  ghost predicate Takes(t: Shared, u: Shared, got: set<int>, deltas: Tally) {
    && got <= t.dirty
    && u == t.(views := t.views - got, dirty := t.dirty - got)
    && deltas.Keys == Positive(t.views, got)
    && (forall id :: id in deltas.Keys ==> deltas[id] == At(t.views, id))
  }

  /** A batch that AddViews commits. */
  lemma CommitProgress(t: Shared, u: Shared, got: set<int>, deltas: Tally)
    requires Takes(t, u, got, deltas)
    ensures Progress(t, u.(store := Add(u.store, deltas)), Sum(deltas, deltas.Keys))
  {
    assert t.dirty - u.dirty == got;
    assert Gone(t, u) == deltas.Keys;
    assert {} + deltas.Keys == deltas.Keys;
    SumDisjoint(t.views, deltas, {}, deltas.Keys);
  }

  lemma EmptyProgress(t: Shared, u: Shared, got: set<int>)
    requires Takes(t, u, got, map[])
    ensures Progress(t, u, 0)
  {
    assert t.dirty - u.dirty == got && Gone(t, u) == {};
    forall id ensures At(u.views, id) == At(t.views, id) {
      assert id in got ==> id !in Positive(t.views, got);
    }
  }

  /** restore has put back everything of `deltas` but `rest`. */
  ghost predicate Restored(r: Shared, t: Shared, deltas: Tally, rest: Tally) {
    && t.store == r.store && t.dirty == r.dirty + (deltas.Keys - rest.Keys)
    && t.views.Keys == r.views.Keys + (deltas.Keys - rest.Keys)
    && forall id :: At(t.views, id) + At(rest, id) == At(r.views, id) + At(deltas, id)
  }

  lemma RestoredStep(r: Shared, t: Shared, deltas: Tally, rest: Tally, id: int)
    requires Restored(r, t, deltas, rest) && id in rest && rest.Keys <= deltas.Keys
    ensures Restored(r, t.(views := Bump(t.views, id, At(rest, id)), dirty := t.dirty + {id}), deltas, rest - {id})
  {
    var u := t.(views := Bump(t.views, id, At(rest, id)), dirty := t.dirty + {id});
    forall k ensures At(u.views, k) + At(rest - {id}, k) == At(r.views, k) + At(deltas, k) {
      assert At(t.views, k) + At(rest, k) == At(r.views, k) + At(deltas, k);
    }
  }

  /** A batch that restore puts back: counters and store are as before, and so are the marks of positive counters. */
  lemma RestoreProgress(t: Shared, u: Shared, v: Shared, got: set<int>, deltas: Tally)
    requires Takes(t, u, got, deltas) && Restored(u, v, deltas, map[])
    ensures Progress(t, v, 0)
  {
    assert Gone(t, v) == {};
    forall id ensures At(v.views, id) == At(t.views, id) {
      assert At(v.views, id) + At(map[], id) == At(u.views, id) + At(deltas, id);
      assert id in deltas.Keys ==> id in got && At(u.views, id) == 0;
    }
  }

  method SumDeltas(deltas: Tally) returns (sum: nat)
    ensures sum == Sum(deltas, deltas.Keys)
  {
    sum := 0;
    var todo := deltas.Keys;
    while todo != {}
      invariant todo <= deltas.Keys
      invariant sum + Sum(deltas, todo) == Sum(deltas, deltas.Keys)
      decreases todo
    {
      var id := PickOne(todo);
      SumMinus(deltas, todo, id);
      sum := sum + deltas[id];
      todo := todo - {id};
    }
  }

  /* ---------- The record of one call ---------- */

  /** Where the call began, its moves so far, what it has stored, and whether an SPOP or AddViews of it failed. */
  datatype Log = Log(start: Here, moves: seq<Move>, total: nat, failed: bool)

  /** A command whose failure flush reports. */
  predicate IsError(a: FlusherAct) {
    (a.Pop? || a.AddViews?) && a.out != Ok
  }

  predicate SomeError(moves: seq<Move>) {
    exists i :: 0 <= i < |moves| && IsError(moves[i].act)
  }

  lemma OneMoreError(moves: seq<Move>, m: Move)
    ensures SomeError(moves + [m]) <==> SomeError(moves) || IsError(m.act)
  {
    if SomeError(moves) {
      var i :| 0 <= i < |moves| && IsError(moves[i].act);
      assert IsError((moves + [m])[i].act);
    }
    if IsError(m.act) {
      assert IsError((moves + [m])[|moves|].act);
    }
  }

  /** The call has come to `t` by these moves; undisturbed, these are all that happened. */
  ghost predicate Ran(o: Environment, log: Log, t: Here) {
    && Moves(log.start.flusher, log.moves) && EndOf(log.start.flusher, log.moves) == t.flusher
    && Stored(log.start.flusher, log.moves) == log.total && (log.failed <==> SomeError(log.moves))
    && (AllAlone(o) ==> Reaches(log.start, Acts(log.moves), t))
  }

  /** The call stands where its last command left it. */
  predicate Ended(log: Log, r: Shared) {
    log.moves != [] && log.moves[|log.moves| - 1].after == r
  }

  lemma Begins(o: Environment, h: Here)
    ensures Ran(o, Log(h, [], 0, false), h)
  {
    NoActs(h);
    assert Acts([]) == [];
  }

  lemma Disturbed(o: Environment, log: Log, r: Shared, t: Shared, x: Flusher)
    requires Ran(o, log, Here(r, x)) && (AllAlone(o) ==> t == r)
    ensures Ran(o, log, Here(t, x))
  {
  }

  lemma Continues(o: Environment, log: Log, r: Shared, x: Flusher, a: FlusherAct)
    requires IsCommand(a) && FlusherCan(r, x, true, true, a) && Ran(o, log, Here(r, x))
    ensures var t := FlusherShared(r, x, a);
      Ran(o, Log(log.start, log.moves + [Move(r, a, t)], log.total + Gain(x, a), log.failed || IsError(a)),
          Here(t, FlusherNext(r, x, a)))
  {
    var t := FlusherShared(r, x, a);
    OneMoreMove(log.start.flusher, log.moves, Move(r, a, t));
    OneMoreError(log.moves, Move(r, a, t));
    assert Acts(log.moves + [Move(r, a, t)]) == Acts(log.moves) + [a];
    if AllAlone(o) {
      Extend(log.start, Acts(log.moves), Here(r, x), a);
    }
  }

  /** The view counter and the two stores behind it. */
  class ViewCounter {
    var shared: Shared

    /** Between two commands others may do anything, unless the call is alone. */
    method Interfere(alone: bool)
      modifies this
      ensures alone ==> shared == old(shared)
    {
      if !alone {
        shared := *;
      }
    }

    /** Sends the command of step `a`. Its effect on Redis and the database is that of the transition system. */
    method Issue(x: Flusher, a: FlusherAct, ghost o: Environment, ghost log: Log) returns (ghost log': Log)
      requires IsCommand(a) && FlusherCan(shared, x, true, true, a) && Ran(o, log, Here(shared, x))
      modifies this
      ensures shared == FlusherShared(old(shared), x, a)
      ensures Ran(o, log', Here(shared, FlusherNext(old(shared), x, a)))
      ensures log'.start == log.start && log'.total == log.total + Gain(x, a) && Ended(log', shared)
      ensures log'.failed == (log.failed || IsError(a))
    {
      Continues(o, log, shared, x, a);
      shared := FlusherShared(shared, x, a);
      log' := Log(log.start, log.moves + [Move(old(shared), a, shared)], log.total + Gain(x, a),
                  log.failed || IsError(a));
    }

    /** A command that does not choose by what it finds: interference, then the command. */
    method Send(x: Flusher, a: FlusherAct, k: nat, o: Environment, ghost log: Log) returns (ghost log': Log)
      requires IsCommand(a) && !a.Pop? && !a.GetDel? && FlusherCan(shared, x, true, true, a)
      requires Ran(o, log, Here(shared, x))
      modifies this
      ensures o.alone(k) ==> shared == FlusherShared(old(shared), x, a)
      ensures Ran(o, log', Here(shared, FlusherNext(old(shared), x, a)))
      ensures log'.start == log.start && log'.total == log.total + Gain(x, a) && Ended(log', shared)
      ensures log'.failed == (log.failed || IsError(a))
    {
      ghost var r := shared;
      Interfere(o.alone(k));
      Disturbed(o, log, r, shared, x);
      SameNext(r, shared, x, a);
      hide Ran;
      hide FlusherNext;
      hide FlusherShared;
      log' := Issue(x, a, o, log);
    }

    /** Puts the deltas of a failed batch back into Redis. */
    method Restore(final: bool, deltas: Tally, o: Environment, k: nat, ghost log: Log) returns (ghost log': Log)
      requires deltas != map[] && Ran(o, log, Here(shared, Flusher(final, FRestore(deltas))))
      modifies this
      ensures Ran(o, log', Here(shared, Flusher(final, if final then FStopped else FIdle)))
      ensures log'.start == log.start && log'.total == log.total && Ended(log', shared)
      ensures Tame(o) ==> Restored(old(shared), shared, deltas, map[])
      ensures log'.failed == log.failed
    {
      hide Ran;
      hide Ended;
      ghost var r := shared;
      log' := log;
      var rest := deltas;
      while rest != map[]
        invariant rest.Keys <= deltas.Keys && forall id :: id in rest.Keys ==> rest[id] == deltas[id]
        invariant Ran(o, log', Here(shared, if rest != map[] then Flusher(final, FRestore(rest))
                                            else Flusher(final, if final then FStopped else FIdle)))
        invariant log'.start == log.start && log'.total == log.total && (rest == map[] ==> Ended(log', shared))
        invariant log'.failed == log.failed
        invariant Tame(o) ==> Restored(r, shared, deltas, rest)
        decreases rest.Keys
      {
        var id := PickOne(rest.Keys);
        if Tame(o) {
          RestoredStep(r, shared, deltas, rest, id);
        }
        log' := Send(Flusher(final, FRestore(rest)), RestoreIncr(id, o.incr(id)), k, o, log');
        log' := Send(Flusher(final, FRestoreMark(id, rest - {id})), RestoreMark(o.mark(id)), k, o, log');
        rest := rest - {id};
      }
    }

    /** Runs the GETDELs of a popped batch; splits it into deltas and ids to retry. */
    method ReadBatch(final: bool, full: bool, ids: set<int>, o: Environment, k: nat, ghost t: Shared, ghost log: Log)
      returns (deltas: Tally, retry: set<int>, ghost log': Log)
      requires shared == t.(dirty := t.dirty - ids)
      requires Ran(o, log, Here(shared, Flusher(final, FGet(full, ids, map[], {}))))
      modifies this
      ensures Ran(o, log', Here(shared, Flusher(final, FGet(full, {}, deltas, retry))))
      ensures log'.start == log.start && log'.total == log.total
      ensures retry <= Failing(o, k, ids) && (o.alone(k) ==> shared.dirty == t.dirty - ids)
      ensures Tame(o) ==> Reading(t, shared, ids, ids - retry, deltas)
      ensures log'.failed == log.failed
    {
      hide FlusherNext;
      hide FlusherShared;
      hide FlusherCan;
      hide Ran;
      hide Ended;
      hide Reading;
      var todo := ids;
      ReadingStart(t, shared, ids);
      deltas, retry, log' := map[], {}, log;
      while todo != {}
        invariant todo <= ids && retry <= ids - todo && retry <= Failing(o, k, ids)
        invariant Ran(o, log', Here(shared, Flusher(final, FGet(full, todo, deltas, retry))))
        invariant log'.start == log.start && log'.total == log.total && log'.failed == log.failed
        invariant o.alone(k) ==> shared.dirty == t.dirty - ids
        invariant Tame(o) ==> Reading(t, shared, ids, ids - todo - retry, deltas)
        decreases todo
      {
        var id := PickOne(todo);
        ghost var r := shared;
        Interfere(o.alone(k));
        Disturbed(o, log', r, shared, Flusher(final, FGet(full, todo, deltas, retry)));
        var n, out := At(shared.views, id), o.getDel(k, id);
        if Tame(o) {
          ReadingStep(t, shared, ids, todo, retry, deltas, id, out);
        }
        GetDelStep(shared, Flusher(final, FGet(full, todo, deltas, retry)), id, out);
        log' := Issue(Flusher(final, FGet(full, todo, deltas, retry)), GetDel(id, out), o, log');
        todo := todo - {id};
        if out.Ok? {
          deltas := if n > 0 then deltas[id := n] else deltas;
        } else {
          retry := retry + {id};
        }
      }
      assert ids - todo - retry == ids - retry;
    }

    /** Writes the deltas of a batch to the store; puts them back if the store refuses. */
    method Persist(final: bool, full: bool, deltas: Tally, o: Environment, k: nat,
                   ghost t: Shared, ghost got: set<int>, ghost log: Log)
      returns (sum: nat, ok: bool, ghost log': Log)
      requires deltas != map[] && Ran(o, log, Here(shared, Flusher(final, FAdd(full, deltas))))
      requires Tame(o) ==> Takes(t, shared, got, deltas)
      modifies this
      ensures ok == o.addViews(k).Ok? && (!ok ==> sum == 0)
      ensures ok && o.alone(k) ==> shared.dirty == old(shared.dirty)
      ensures Ran(o, log', Here(shared, Flusher(final, if ok && full then FPop else if final then FStopped else FIdle)))
      ensures log'.start == log.start && log'.total == log.total + sum && Ended(log', shared)
      ensures Tame(o) ==> Progress(t, shared, sum)
      ensures log'.failed == (log.failed || !ok)
    {
      hide Ran;
      hide Ended;
      hide Progress;
      hide Takes;
      ghost var u := shared;
      ok := o.addViews(k).Ok?;
      log' := Send(Flusher(final, FAdd(full, deltas)), AddViews(o.addViews(k)), k, o, log);
      if ok {
        sum := SumDeltas(deltas);
        if Tame(o) {
          CommitProgress(t, u, got, deltas);
        }
      } else {
        sum := 0;
        log' := Restore(final, deltas, o, k, log');
        if Tame(o) {
          RestoreProgress(t, u, shared, got, deltas);
        }
      }
    }

    /** Marks the ids whose GETDEL failed as dirty again, if there are any. */
    method MarkAgain(final: bool, full: bool, ids: set<int>, deltas: Tally, retry: set<int>, o: Environment, k: nat,
                     ghost t: Shared, ghost log: Log)
      returns (ghost log': Log)
      requires ids <= t.dirty && retry <= Failing(o, k, ids) && (o.alone(k) ==> shared.dirty == t.dirty - ids)
      requires Tame(o) ==> Reading(t, shared, ids, ids - retry, deltas)
      requires Ran(o, log, Here(shared, Flusher(final, FGet(full, {}, deltas, retry))))
      modifies this
      ensures Ran(o, log', Here(shared, Flusher(final, if deltas != map[] then FAdd(full, deltas)
                                                       else if full then FPop
                                                       else if final then FStopped else FIdle)))
      ensures log'.start == log.start && log'.total == log.total && Ended(log', shared)
      ensures o.alone(k) ==> t.dirty - ids <= shared.dirty <= t.dirty - ids + Failing(o, k, ids)
      ensures Tame(o) ==> Takes(t, shared, ids - retry, deltas)
      ensures log'.failed == log.failed
    {
      hide Ran;
      hide Ended;
      hide Takes;
      hide Reading;
      if Tame(o) {
        MarkedAgain(t, shared, ids, retry, deltas);
      }
      var out := if retry != {} then o.retry(k) else Ok;
      RetryStep(shared, Flusher(final, FGet(full, {}, deltas, retry)), out);
      hide FlusherCan;
      hide FlusherNext;
      hide FlusherShared;
      log' := Send(Flusher(final, FGet(full, {}, deltas, retry)), Retry(out), k, o, log);
    }

    /** Moves a popped, non-empty batch to the store. */
    method MoveBatch(final: bool, full: bool, ids: set<int>, o: Environment, k: nat, ghost t: Shared, ghost log: Log)
      returns (sum: nat, ok: bool, ghost log': Log)
      requires ids <= t.dirty && shared == t.(dirty := t.dirty - ids)
      requires Ran(o, log, Here(shared, Flusher(final, FGet(full, ids, map[], {}))))
      modifies this
      ensures !ok ==> sum == 0 && !o.addViews(k).Ok?
      ensures ok && o.alone(k) ==> t.dirty - ids <= shared.dirty <= t.dirty - ids + Failing(o, k, ids)
      ensures Ran(o, log', Here(shared, Flusher(final, if ok && full then FPop else if final then FStopped else FIdle)))
      ensures log'.start == log.start && log'.total == log.total + sum && Ended(log', shared)
      ensures Tame(o) ==> Progress(t, shared, sum)
      ensures log'.failed == (log.failed || !ok)
    {
      hide Ran;
      hide Ended;
      hide Progress;
      hide Takes;
      hide Reading;
      var deltas, retry;
      deltas, retry, log' := ReadBatch(final, full, ids, o, k, t, log);
      log' := MarkAgain(final, full, ids, deltas, retry, o, k, t, log');
      sum, ok := 0, true;
      if deltas != map[] {
        sum, ok, log' := Persist(final, full, deltas, o, k, t, ids - retry, log');
      } else if Tame(o) {
        EmptyProgress(t, shared, ids - retry);
      }
    }

    /** One turn of the loop: `more` says that the batch was full, `err` that flush returns an error. */
    method Batch(final: bool, o: Environment, k: nat, ghost log: Log)
      returns (sum: nat, more: bool, err: bool, ghost log': Log)
      requires Ran(o, log, Here(shared, Flusher(final, FPop)))
      modifies this
      ensures Ran(o, log', Here(shared, Flusher(final, if more then FPop else if final then FStopped else FIdle)))
      ensures log'.start == log.start && log'.total == log.total + sum && Ended(log', shared)
      ensures Tame(o) ==> Progress(old(shared), shared, sum)
      ensures err ==> !more && sum == 0 && !(o.pop(k).Ok? && o.addViews(k).Ok?)
      ensures more && o.alone(k) ==>
        && shared.dirty <= old(shared.dirty)
        && |shared.dirty| + FLUSH_BATCH <= |old(shared.dirty)| + |Failing(o, k, old(shared.dirty))|
      ensures !err && o.alone(k) && ReadsWork(o, k) ==>
        && |shared.dirty| == |old(shared.dirty)| - Min(FLUSH_BATCH, |old(shared.dirty)|)
        && more == (FLUSH_BATCH <= |old(shared.dirty)|)
      ensures log'.failed == (log.failed || err)
    {
      hide Ran;
      hide Ended;
      hide Progress;
      ghost var r := shared;
      ProgressRefl(r);
      Interfere(o.alone(k));
      Disturbed(o, log, r, shared, Flusher(final, FPop));
      ghost var t := shared;
      sum, more, err := 0, false, false;
      var out := o.pop(k);
      var ids := PickSubset(shared.dirty, Min(FLUSH_BATCH, |shared.dirty|));
      log' := Issue(Flusher(final, FPop), Pop(ids, out), o, log);
      if !out.Ok? {
        err := true;
      } else if ids != {} {
        var full, ok := |ids| >= FLUSH_BATCH, true;
        sum, ok, log' := MoveBatch(final, full, ids, o, k, t, log');
        err, more := !ok, ok && full;
        BatchShrinks(o, k, t.dirty, ids, shared.dirty);
      }
    }

    /**
     flush. It needs `healthy`: from that batch on nobody refills the dirty set and fewer
     than a batch of ids fail their GETDEL. `pops` counts the SPOPs, and `last` is the
     state before the last batch.
     */
    method Flush(final: bool, o: Environment, ghost healthy: nat)
      returns (total: nat, err: bool, pops: nat, ghost last: Shared, ghost log: Log)
      requires forall k: nat :: healthy <= k ==> Calm(o, k, shared.dirty)
      modifies this
      ensures log.start == Here(old(shared), Flusher(final, FPop)) && log.total == total && Ended(log, shared)
      ensures Ran(o, log, Here(shared, Flusher(final, if final then FStopped else FIdle)))
      ensures AllAlone(o) ==> forall id :: Holding(shared, FIdle, id) == old(Holding(shared, FIdle, id))
      ensures Tame(o) ==> Progress(old(shared), shared, total)
      ensures Tame(o) && err ==> Progress(old(shared), last, total) && Progress(last, shared, 0)
      ensures err ==> pops > 0 && !(o.pop(pops - 1).Ok? && o.addViews(pops - 1).Ok?)
      ensures AllAlone(o) && AllReadsWork(o) ==>
        if err then pops > 0 && |old(shared.dirty)| == |last.dirty| + (pops - 1) * FLUSH_BATCH
        else shared.dirty == {} && pops == |old(shared.dirty)| / 1000 + 1
      ensures err <==> SomeError(log.moves)
    {
      hide Ran;
      hide Ended;
      hide Progress;
      hide Tame;
      hide Calm;
      ghost var r := shared;
      total, err, pops, last, log := 0, false, 0, shared, Log(Here(shared, Flusher(final, FPop)), [], 0, false);
      Begins(o, log.start);
      var more := true;
      ProgressRefl(shared);
      while more
        invariant Ran(o, log, Here(shared, if more then Flusher(final, FPop)
                                           else Flusher(final, if final then FStopped else FIdle)))
        invariant log.start == Here(r, Flusher(final, FPop)) && log.total == total && (!more ==> Ended(log, shared))
        invariant Tame(o) ==> Progress(r, shared, total)
        invariant (more ==> !err) && log.failed == err
        invariant err ==> pops > 0 && !(o.pop(pops - 1).Ok? && o.addViews(pops - 1).Ok?)
        invariant Tame(o) && err ==> Progress(r, last, total) && Progress(last, shared, 0)
        invariant more && AllAlone(o) ==> shared.dirty <= r.dirty
        invariant AllAlone(o) && AllReadsWork(o) ==>
          if more then |r.dirty| == |shared.dirty| + pops * FLUSH_BATCH
          else if err then pops > 0 && |r.dirty| == |last.dirty| + (pops - 1) * FLUSH_BATCH
          else |shared.dirty| == 0 && pops == |r.dirty| / FLUSH_BATCH + 1
        decreases more, if pops < healthy then healthy - pops else 0, |shared.dirty|
      {
        last := shared;
        if healthy <= pops {
          CalmNow(o, pops, r.dirty, shared.dirty);
        }
        var sum;
        sum, more, err, log := Batch(final, o, pops, log);
        if Tame(o) {
          ProgressTrans(r, last, shared, total, sum);
        }
        total := total + sum;
        pops := pops + 1;
      }
      FailedMeans(o, log, Here(shared, Flusher(final, if final then FStopped else FIdle)));
      if AllAlone(o) {
        UndisturbedConserves(o, log, Here(shared, Flusher(final, if final then FStopped else FIdle)));
      }
    }
  }

  /**
   The loop among others. If what happened between its commands are legal steps of
   other processes, then the call and they are a run of the system, which ends where the
   call ended, and conserves every link's views.
   */
  lemma CallAmongOthers(o: Environment, log: Log, t: Here, s: State, f: nat, gaps: seq<seq<Label>>)
    requires Ran(o, log, t) && Ended(log, t.shared)
    requires WellFormed(s) && f < |s.flushers| && s.flushers[f] == log.start.flusher
    requires |gaps| == |log.moves| && Fits(s, f, gaps, log.moves)
    ensures Legal(s, Weave(f, gaps, log.moves))
    ensures var u := Exec(s, Weave(f, gaps, log.moves));
      && f < |u.flushers| && u.flushers[f] == t.flusher && u.shared == t.shared
      && (Conserved(s) ==> Conserved(u))
  {
    WovenIsLegal(s, f, gaps, log.moves);
    if Conserved(s) {
      ViewsAreConserved(s, Weave(f, gaps, log.moves));
    }
  }

  lemma SameNext(r: Shared, t: Shared, x: Flusher, a: FlusherAct)
    requires FlusherCan(r, x, true, true, a) && IsCommand(a) && !a.Pop? && !a.GetDel?
    ensures FlusherCan(t, x, true, true, a) && FlusherNext(t, x, a) == FlusherNext(r, x, a)
  {
  }

  lemma CalmNow(o: Environment, k: nat, dirty: set<int>, now: set<int>)
    requires Calm(o, k, dirty) && (AllAlone(o) ==> now <= dirty)
    ensures o.alone(k) && |Failing(o, k, now)| < FLUSH_BATCH
  {
  }

  /** A batch takes its ids out of the dirty set; only failing ones can come back. */
  lemma BatchShrinks(o: Environment, k: nat, before: set<int>, ids: set<int>, after: set<int>)
    ensures ids <= before && before - ids <= after <= before - ids + Failing(o, k, ids) ==>
      && after <= before && |after| + |ids| <= |before| + |Failing(o, k, before)|
      && (ReadsWork(o, k) ==> |after| == |before| - |ids|)
  {
    if ids <= before && before - ids <= after <= before - ids + Failing(o, k, ids) {
      Smaller(after, before - ids + Failing(o, k, ids));
      Smaller(Failing(o, k, ids), Failing(o, k, before));
      assert |before - ids| == |before| - |ids|;
      if ReadsWork(o, k) {
        forall id ensures id !in Failing(o, k, ids) { assert o.getDel(k, id).Ok?; }
        assert after == before - ids;
      }
    }
  }

  lemma FailedMeans(o: Environment, log: Log, t: Here)
    requires Ran(o, log, t)
    ensures log.failed <==> SomeError(log.moves)
  {
  }

  lemma UndisturbedConserves(o: Environment, log: Log, t: Here)
    requires AllAlone(o) && Ran(o, log, t)
    requires log.start.flusher.pc.FPop? && (t.flusher.pc.FIdle? || t.flusher.pc.FStopped?)
    ensures forall id :: Holding(t.shared, FIdle, id) == Holding(log.start.shared, FIdle, id)
  {
    CallConserves(log.start, Acts(log.moves), t);
  }

  /** The ids whose GETDEL failed are dirty again. */
  lemma MarkedAgain(t: Shared, u: Shared, ids: set<int>, retry: set<int>, deltas: Tally)
    requires ids <= t.dirty && retry <= ids && Reading(t, u, ids, ids - retry, deltas)
    ensures Takes(t, u.(dirty := u.dirty + retry), ids - retry, deltas)
  {
    assert t.dirty - ids + retry == t.dirty - (ids - retry);
  }

  lemma RetryStep(r: Shared, x: Flusher, out: Outcome)
    requires x.pc.FGet? && x.pc.todo == {} && (out.Ok? || x.pc.retry != {})
    ensures FlusherCan(r, x, true, true, Retry(out))
    ensures FlusherShared(r, x, Retry(out)) == if Applied(out) then r.(dirty := r.dirty + x.pc.retry) else r
    ensures FlusherNext(r, x, Retry(out))
         == x.(pc := if x.pc.deltas != map[] then FAdd(x.pc.full, x.pc.deltas) else EndBatch(x, x.pc.full))
  {
  }

  lemma GetDelStep(r: Shared, x: Flusher, id: int, out: Outcome)
    requires x.pc.FGet? && id in x.pc.todo
    ensures var FGet(full, todo, deltas, retry) := x.pc;
            var n := At(r.views, id);
      && FlusherCan(r, x, true, true, GetDel(id, out))
      && FlusherShared(r, x, GetDel(id, out)).dirty == r.dirty
      && (out.Ok? ==>
            && FlusherShared(r, x, GetDel(id, out)) == r.(views := r.views - {id})
            && FlusherNext(r, x, GetDel(id, out))
               == x.(pc := FGet(full, todo - {id}, if n > 0 then deltas[id := n] else deltas, retry)))
      && (!out.Ok? ==>
            FlusherNext(r, x, GetDel(id, out)) == x.(pc := FGet(full, todo - {id}, deltas, retry + {id})))
      && (out.Rejected? ==> FlusherShared(r, x, GetDel(id, out)) == r)
  {
  }

  ghost predicate Reading(t: Shared, u: Shared, ids: set<int>, got: set<int>, deltas: Tally) {
    && u == t.(views := t.views - got, dirty := t.dirty - ids)
    && deltas.Keys == Positive(t.views, got)
    && (forall id :: id in deltas.Keys ==> deltas[id] == At(t.views, id))
  }

  lemma ReadingStart(t: Shared, u: Shared, ids: set<int>)
    requires u == t.(dirty := t.dirty - ids)
    ensures Reading(t, u, ids, ids - ids - {}, map[])
  {
    assert t.views - {} == t.views;
  }

  lemma ReadingStep(t: Shared, u: Shared, ids: set<int>, todo: set<int>, retry: set<int>, deltas: Tally,
                    id: int, out: Outcome)
    requires Reading(t, u, ids, ids - todo - retry, deltas)
    requires id in todo && todo <= ids && retry <= ids - todo && !out.Lost?
    ensures var n := At(u.views, id);
      if out.Ok? then
        Reading(t, u.(views := u.views - {id}), ids, ids - (todo - {id}) - retry,
                if n > 0 then deltas[id := n] else deltas)
      else Reading(t, u, ids, ids - (todo - {id}) - (retry + {id}), deltas)
  {
    var got := ids - todo - retry;
    assert t.views - got - {id} == t.views - (got + {id});
    assert ids - (todo - {id}) - retry == got + {id};
    assert ids - (todo - {id}) - (retry + {id}) == got;
  }
}
