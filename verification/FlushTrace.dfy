/**
 Calls of flush as sequences of commands: undisturbed, and with anything happening
 to Redis and the database between two commands. Both are runs of the whole system.
 */
module FlushTrace {
  import opened Sets
  import opened ViewPipeline
  import opened ViewConservation

  /* ---------- A flusher running alone ---------- */

  datatype Here = Here(shared: Shared, flusher: Flusher)

  function Next(h: Here, a: FlusherAct): Here
    requires FlusherCan(h.shared, h.flusher, true, true, a)
  {
    Here(FlusherShared(h.shared, h.flusher, a), FlusherNext(h.shared, h.flusher, a))
  }

  /** A command of flush, as opposed to the goroutine starting or stopping it. */
  predicate IsCommand(a: FlusherAct) {
    !a.Start? && !a.Quit? && !a.StartFinal?
  }

  predicate Alone(h: Here, acts: seq<FlusherAct>)
    decreases |acts|
  {
    acts == [] ||
    (IsCommand(acts[0]) && FlusherCan(h.shared, h.flusher, true, true, acts[0]) && Alone(Next(h, acts[0]), acts[1..]))
  }

  function RunAlone(h: Here, acts: seq<FlusherAct>): Here
    requires Alone(h, acts)
    decreases |acts|
  {
    if acts == [] then h else RunAlone(Next(h, acts[0]), acts[1..])
  }

  predicate Reaches(h: Here, acts: seq<FlusherAct>, t: Here) {
    Alone(h, acts) && RunAlone(h, acts) == t
  }

  lemma NoActs(h: Here)
    ensures Reaches(h, [], h)
  {
  }

  lemma {:induction false} Extend(h: Here, acts: seq<FlusherAct>, t: Here, a: FlusherAct)
    requires Reaches(h, acts, t) && IsCommand(a) && FlusherCan(t.shared, t.flusher, true, true, a)
    ensures Reaches(h, acts + [a], Next(t, a))
    decreases |acts|
  {
    hide Next;
    if acts == [] {
      assert [a][1..] == [] && [] + [a] == [a];
      assert Alone(h, [a]) && RunAlone(h, [a]) == RunAlone(Next(h, a), []);
    } else {
      Extend(Next(h, acts[0]), acts[1..], t, a);
      assert (acts + [a])[1..] == acts[1..] + [a];
    }
  }

  /** The same commands as labels of flusher `f`. */
  function Lift(f: nat, acts: seq<FlusherAct>): seq<Label> {
    seq(|acts|, i requires 0 <= i < |acts| => Flush(f, acts[i]))
  }

  /** A call of flush that nobody interferes with is a run of the whole system. */
  lemma {:induction false} AloneIsLegal(s: State, f: nat, acts: seq<FlusherAct>)
    requires WellFormed(s) && f < |s.flushers| && Alone(Here(s.shared, s.flushers[f]), acts)
    ensures var t := RunAlone(Here(s.shared, s.flushers[f]), acts);
      && Legal(s, Lift(f, acts))
      && Exec(s, Lift(f, acts)) == s.(shared := t.shared, flushers := s.flushers[f := t.flusher])
    decreases |acts|
  {
    if acts != [] {
      var l := Flush(f, acts[0]);
      assert Lift(f, acts)[0] == l && Lift(f, acts)[1..] == Lift(f, acts[1..]);
      var s1 := Apply(s, l);
      assert Here(s1.shared, s1.flushers[f]) == Next(Here(s.shared, s.flushers[f]), acts[0]);
      AloneIsLegal(s1, f, acts[1..]);
      LegalCons(s, l, Lift(f, acts[1..]));
      assert [l] + Lift(f, acts[1..]) == Lift(f, acts);
    } else {
      assert s.flushers[f := s.flushers[f]] == s.flushers;
    }
  }

  /** Whatever fails, a call of flush conserves every link's views. */
  lemma {:induction false} AloneConserves(h: Here, acts: seq<FlusherAct>, id: int)
    requires Alone(h, acts)
    requires h.flusher.pc.FGet? ==> h.flusher.pc.todo !! h.flusher.pc.deltas.Keys
    ensures var t := RunAlone(h, acts);
      Holding(t.shared, t.flusher.pc, id) == Holding(h.shared, h.flusher.pc, id)
    decreases |acts|
  {
    hide FlusherCan;
    hide FlusherNext;
    hide FlusherShared;
    hide Holding;
    if acts != [] {
      FlusherBalance(h.shared, h.flusher, acts[0], id);
      FlusherTidy(h.shared, h.flusher, acts[0]);
      AloneConserves(Next(h, acts[0]), acts[1..], id);
    }
  }

  lemma CallConserves(h: Here, acts: seq<FlusherAct>, t: Here)
    requires Reaches(h, acts, t) && h.flusher.pc.FPop? && (t.flusher.pc.FIdle? || t.flusher.pc.FStopped?)
    ensures forall id :: Holding(t.shared, FIdle, id) == Holding(h.shared, FIdle, id)
  {
    forall id ensures Holding(t.shared, FIdle, id) == Holding(h.shared, FIdle, id) {
      AloneConserves(h, acts, id);
    }
  }

  /* ---------- A flusher among others ---------- */

  /** A command, and the shared state it found and left. */
  datatype Move = Move(before: Shared, act: FlusherAct, after: Shared)

  predicate CanMove(x: Flusher, m: Move) {
    && IsCommand(m.act) && FlusherCan(m.before, x, true, true, m.act)
    && m.after == FlusherShared(m.before, x, m.act)
  }

  /** The moves of one flusher, whatever others do in between. */
  predicate Moves(x: Flusher, moves: seq<Move>)
    decreases |moves|
  {
    moves == [] || (CanMove(x, moves[0]) && Moves(FlusherNext(moves[0].before, x, moves[0].act), moves[1..]))
  }

  function EndOf(x: Flusher, moves: seq<Move>): Flusher
    requires Moves(x, moves)
    decreases |moves|
  {
    if moves == [] then x else EndOf(FlusherNext(moves[0].before, x, moves[0].act), moves[1..])
  }

  ghost function Sum(m: Tally, ids: set<int>): nat {
    if ids == {} then 0
    else
      var id := Pick(ids);
      At(m, id) + Sum(m, ids - {id})
  }

  /** What a command adds to the store and reports as stored. */
  ghost function Gain(x: Flusher, a: FlusherAct): nat {
    if a == AddViews(Ok) && x.pc.FAdd? then Sum(x.pc.deltas, x.pc.deltas.Keys) else 0
  }

  ghost function Stored(x: Flusher, moves: seq<Move>): nat
    requires Moves(x, moves)
    decreases |moves|
  {
    if moves == [] then 0
    else Gain(x, moves[0].act) + Stored(FlusherNext(moves[0].before, x, moves[0].act), moves[1..])
  }

  lemma {:induction false} OneMoreMove(x: Flusher, moves: seq<Move>, m: Move)
    requires Moves(x, moves) && CanMove(EndOf(x, moves), m)
    ensures Moves(x, moves + [m])
    ensures EndOf(x, moves + [m]) == FlusherNext(m.before, EndOf(x, moves), m.act)
    ensures Stored(x, moves + [m]) == Stored(x, moves) + Gain(EndOf(x, moves), m.act)
    decreases |moves|
  {
    hide FlusherNext;
    hide FlusherCan;
    hide FlusherShared;
    hide Gain;
    if moves == [] {
      assert [m][1..] == [] && [] + [m] == [m];
      assert Moves(FlusherNext(m.before, x, m.act), []);
      assert Moves(x, [m]) && EndOf(x, [m]) == EndOf(FlusherNext(m.before, x, m.act), []);
      assert Stored(x, [m]) == Gain(x, m.act) + Stored(FlusherNext(m.before, x, m.act), []);
    } else {
      OneMoreMove(FlusherNext(moves[0].before, x, moves[0].act), moves[1..], m);
      assert (moves + [m])[1..] == moves[1..] + [m];
    }
  }

  function Acts(moves: seq<Move>): seq<FlusherAct> {
    seq(|moves|, i requires 0 <= i < |moves| => moves[i].act)
  }

  /* ---------- Every such call is a run of the system ---------- */

  /** Steps of anybody but flusher `f`. */
  predicate NotBy(f: nat, ls: seq<Label>) {
    forall i :: 0 <= i < |ls| ==> !(ls[i].Flush? && ls[i].f == f)
  }

  /** Before each command the others take the steps of a gap. */
  function Weave(f: nat, gaps: seq<seq<Label>>, moves: seq<Move>): seq<Label>
    requires |gaps| == |moves|
    decreases |moves|
  {
    if moves == [] then [] else gaps[0] + ([Flush(f, moves[0].act)] + Weave(f, gaps[1..], moves[1..]))
  }

  /** The gaps are what happened: legal steps of others that lead from what one command left to what the next found. */
  predicate Fits(s: State, f: nat, gaps: seq<seq<Label>>, moves: seq<Move>)
    requires WellFormed(s) && f < |s.flushers| && |gaps| == |moves|
    decreases |moves|
  {
    moves == [] ||
    (&& Legal(s, gaps[0]) && NotBy(f, gaps[0])
     && var u, l := Exec(s, gaps[0]), Flush(f, moves[0].act);
        u.shared == moves[0].before && f < |u.flushers|
        && (Enabled(u, l) ==> Fits(Apply(u, l), f, gaps[1..], moves[1..])))
  }

  lemma {:induction false} OthersKeepFlusher(s: State, ls: seq<Label>, f: nat)
    requires WellFormed(s) && Legal(s, ls) && NotBy(f, ls) && f < |s.flushers|
    ensures f < |Exec(s, ls).flushers| && Exec(s, ls).flushers[f] == s.flushers[f]
    decreases |ls|
  {
    if ls != [] {
      assert forall i :: 0 <= i < |ls[1..]| ==> ls[1..][i] == ls[i + 1];
      OthersKeepFlusher(Apply(s, ls[0]), ls[1..], f);
    }
  }

  lemma {:induction false} ExecConcat(s: State, a: seq<Label>, b: seq<Label>)
    requires WellFormed(s) && Legal(s, a) && Legal(Exec(s, a), b)
    ensures Legal(s, a + b) && Exec(s, a + b) == Exec(Exec(s, a), b)
    decreases |a|
  {
    if a == [] {
      assert a + b == b;
    } else {
      var t := Apply(s, a[0]);
      assert Legal(t, a[1..]) && Exec(s, a) == Exec(t, a[1..]);
      hide Legal;
      hide Exec;
      hide Apply;
      hide Enabled;
      ExecConcat(t, a[1..], b);
      LegalCons(s, a[0], a[1..] + b);
      assert [a[0]] + (a[1..] + b) == a + b;
    }
  }

  /**
   Whatever the other processes do between the commands of a call, the call and they
   together are a run of the system, so all its invariants hold throughout.
   */
  lemma {:induction false} WovenIsLegal(s: State, f: nat, gaps: seq<seq<Label>>, moves: seq<Move>)
    requires WellFormed(s) && f < |s.flushers| && |gaps| == |moves|
    requires Moves(s.flushers[f], moves) && Fits(s, f, gaps, moves)
    ensures Legal(s, Weave(f, gaps, moves))
    ensures var t := Exec(s, Weave(f, gaps, moves));
      && f < |t.flushers| && t.flushers[f] == EndOf(s.flushers[f], moves)
      && (moves != [] ==> t.shared == moves[|moves| - 1].after)
    decreases |moves|
  {
    if moves != [] {
      FirstMove(s, f, gaps, moves);
      var v := Apply(Exec(s, gaps[0]), Flush(f, moves[0].act));
      assert Exec(v, []) == v;
      hide Apply;
      hide Enabled;
      hide Fits;
      hide Moves;
      hide EndOf;
      hide Legal;
      hide Exec;
      WovenIsLegal(v, f, gaps[1..], moves[1..]);
      GapThenStep(s, gaps[0], Flush(f, moves[0].act), Weave(f, gaps[1..], moves[1..]));
    }
  }

  /** The first gap and the first command, and what is left to do after them. */
  lemma FirstMove(s: State, f: nat, gaps: seq<seq<Label>>, moves: seq<Move>)
    requires WellFormed(s) && f < |s.flushers| && |gaps| == |moves| && moves != []
    requires Moves(s.flushers[f], moves) && Fits(s, f, gaps, moves)
    ensures Legal(s, gaps[0]) && Enabled(Exec(s, gaps[0]), Flush(f, moves[0].act))
    ensures var v := Apply(Exec(s, gaps[0]), Flush(f, moves[0].act));
      && f < |v.flushers| && v.shared == moves[0].after
      && Moves(v.flushers[f], moves[1..]) && Fits(v, f, gaps[1..], moves[1..])
      && EndOf(v.flushers[f], moves[1..]) == EndOf(s.flushers[f], moves)
  {
    OthersKeepFlusher(s, gaps[0], f);
    CommandIsTaken(Exec(s, gaps[0]), f, moves[0]);
    hide Apply;
    hide Enabled;
    hide FlusherNext;
  }

  lemma GapThenStep(s: State, gap: seq<Label>, l: Label, rest: seq<Label>)
    requires WellFormed(s) && Legal(s, gap) && Enabled(Exec(s, gap), l) && Legal(Apply(Exec(s, gap), l), rest)
    ensures Legal(s, gap + ([l] + rest)) && Exec(s, gap + ([l] + rest)) == Exec(Apply(Exec(s, gap), l), rest)
  {
    hide Apply;
    hide Enabled;
    LegalCons(Exec(s, gap), l, rest);
    ExecConcat(s, gap, [l] + rest);
  }

  lemma CommandIsTaken(s: State, f: nat, m: Move)
    requires WellFormed(s) && f < |s.flushers| && s.shared == m.before && CanMove(s.flushers[f], m)
    ensures Enabled(s, Flush(f, m.act))
    ensures var t := Apply(s, Flush(f, m.act));
      && f < |t.flushers| && t.flushers[f] == FlusherNext(m.before, s.flushers[f], m.act) && t.shared == m.after
  {
  }
}
