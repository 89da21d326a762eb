/**
 What happens to each tracked event, read off the labels of a run: when it is
 dropped, in which order events are received, and that each one received runs the
 script once.
 */
module ViewEvents {
  import opened ViewPipeline
  import opened ViewShutdown
  import ViewDedupe

  /** The buffer of instance `k` has no place left. */
  predicate Full(s: State, k: nat) {
    k < |s.insts| && |s.insts[k].queue| >= 10_000
  }

  predicate TracksTo(l: Label, k: nat) {
    l.Track? && l.inst == k
  }

  /* ---------- Drops ---------- */

  /** A step drops an event if and only if it is a Track of that instance while 10,000 events are queued. */
  lemma DropIff(s: State, l: Label, k: nat)
    requires WellFormed(s) && Enabled(s, l) && k < |s.insts|
    ensures k < |Apply(s, l).insts|
    ensures Apply(s, l).insts[k].dropped != s.insts[k].dropped <==> TracksTo(l, k) && Full(s, k)
    ensures TracksTo(l, k) && Full(s, k) ==>
      && Apply(s, l).insts[k].dropped == s.insts[k].dropped + multiset{l.event}
      && Apply(s, l).insts[k].queue == s.insts[k].queue
  {
    if TracksTo(l, k) && Full(s, k) {
      assert (s.insts[k].dropped + multiset{l.event})[l.event] == s.insts[k].dropped[l.event] + 1;
    }
  }

  /** How often `e` was tracked at instance `k`, and how often while its buffer was full. */
  function Tracks(s: State, ls: seq<Label>, k: nat, e: Event): nat
    requires WellFormed(s) && Legal(s, ls)
    decreases |ls|
  {
    if ls == [] then 0
    else (if ls[0] == Track(k, e) then 1 else 0) + Tracks(Apply(s, ls[0]), ls[1..], k, e)
  }

  function Drops(s: State, ls: seq<Label>, k: nat, e: Event): nat
    requires WellFormed(s) && Legal(s, ls)
    decreases |ls|
  {
    if ls == [] then 0
    else (if ls[0] == Track(k, e) && Full(s, k) then 1 else 0) + Drops(Apply(s, ls[0]), ls[1..], k, e)
  }

  lemma StepTracks(s: State, l: Label, k: nat, e: Event)
    requires WellFormed(s) && Enabled(s, l) && k < |s.insts|
    ensures k < |Apply(s, l).insts|
    ensures var i, j := s.insts[k], Apply(s, l).insts[k];
      && j.tracked[e] == i.tracked[e] + (if l == Track(k, e) then 1 else 0)
      && j.dropped[e] == i.dropped[e] + (if l == Track(k, e) && Full(s, k) then 1 else 0)
  {
  }

  lemma {:induction false} EventsAreExact(s: State, ls: seq<Label>, k: nat, e: Event)
    requires WellFormed(s) && Legal(s, ls) && k < |s.insts|
    ensures k < |Exec(s, ls).insts|
    ensures var i, j := s.insts[k], Exec(s, ls).insts[k];
      && j.tracked[e] == i.tracked[e] + Tracks(s, ls, k, e)
      && j.dropped[e] == i.dropped[e] + Drops(s, ls, k, e)
    decreases |ls|
  {
    if ls != [] {
      StepTracks(s, ls[0], k, e);
      hide Apply;
      hide Enabled;
      hide Full;
      EventsAreExact(Apply(s, ls[0]), ls[1..], k, e);
    }
  }

  /** No Track finds the buffer of instance `k` full. */
  predicate NeverFull(s: State, ls: seq<Label>, k: nat)
    requires WellFormed(s) && Legal(s, ls)
    decreases |ls|
  {
    ls == [] || (!(TracksTo(ls[0], k) && Full(s, k)) && NeverFull(Apply(s, ls[0]), ls[1..], k))
  }

  lemma {:induction false} NothingDropped(s: State, ls: seq<Label>, k: nat, e: Event)
    requires WellFormed(s) && Legal(s, ls) && NeverFull(s, ls, k)
    ensures Drops(s, ls, k, e) == 0
    decreases |ls|
  {
    if ls != [] {
      NothingDropped(Apply(s, ls[0]), ls[1..], k, e);
    }
  }

  /* ---------- The queue ---------- */

  /** The event a step puts into the buffer of instance `k`. */
  function AcceptedBy(s: State, l: Label, k: nat): seq<Event> {
    if TracksTo(l, k) && !Full(s, k) then [l.event] else []
  }

  /** The event with which a worker of instance `k` goes to work. */
  function ReceivedBy(s: State, l: Label, k: nat): seq<Event>
    requires WellFormed(s) && Enabled(s, l)
  {
    if l.Work? && l.work.Receive? && s.workerHome[l.w] == k && Apply(s, l).workers[l.w].WScript?
    then [Apply(s, l).workers[l.w].event] else []
  }

  function Accepted(s: State, ls: seq<Label>, k: nat): seq<Event>
    requires WellFormed(s) && Legal(s, ls)
    decreases |ls|
  {
    if ls == [] then [] else AcceptedBy(s, ls[0], k) + Accepted(Apply(s, ls[0]), ls[1..], k)
  }

  function Received(s: State, ls: seq<Label>, k: nat): seq<Event>
    requires WellFormed(s) && Legal(s, ls)
    decreases |ls|
  {
    if ls == [] then [] else ReceivedBy(s, ls[0], k) + Received(Apply(s, ls[0]), ls[1..], k)
  }

  lemma StepQueues(s: State, l: Label, k: nat)
    requires WellFormed(s) && Enabled(s, l) && k < |s.insts|
    ensures k < |Apply(s, l).insts|
    ensures ReceivedBy(s, l, k) + Apply(s, l).insts[k].queue == s.insts[k].queue + AcceptedBy(s, l, k)
  {
    if l.Work? && l.work.Receive? && s.workerHome[l.w] == k {
      var q := s.insts[k].queue;
      assert [q[0]] + q[1..] == q;
    }
  }

  /** Events are received in the order in which they were accepted, and none goes missing. */
  lemma {:induction false} QueueIsFifo(s: State, ls: seq<Label>, k: nat)
    requires WellFormed(s) && Legal(s, ls) && k < |s.insts|
    ensures k < |Exec(s, ls).insts|
    ensures Received(s, ls, k) + Exec(s, ls).insts[k].queue == s.insts[k].queue + Accepted(s, ls, k)
    decreases |ls|
  {
    if ls == [] {
      assert [] + s.insts[k].queue == s.insts[k].queue + [];
    } else {
      var t := Apply(s, ls[0]);
      StepQueues(s, ls[0], k);
      hide Apply;
      hide Enabled;
      hide AcceptedBy;
      hide ReceivedBy;
      QueueIsFifo(t, ls[1..], k);
      Exchange(ReceivedBy(s, ls[0], k), t.insts[k].queue, s.insts[k].queue, AcceptedBy(s, ls[0], k),
               Received(t, ls[1..], k), Exec(t, ls[1..]).insts[k].queue, Accepted(t, ls[1..], k));
    }
  }

  lemma Exchange(r: seq<Event>, q: seq<Event>, p: seq<Event>, a: seq<Event>,
                 rs: seq<Event>, end: seq<Event>, bs: seq<Event>)
    requires r + q == p + a && rs + end == q + bs
    ensures (r + rs) + end == p + (a + bs)
  {
    assert (r + rs) + end == r + (rs + end) == r + (q + bs) == (r + q) + bs == (p + a) + bs == p + (a + bs);
  }

  /* ---------- The clock ---------- */

  function Elapsed(ls: seq<Label>): nat
    decreases |ls|
  {
    if ls == [] then 0 else (if ls[0].Tick? then ls[0].d else 0) + Elapsed(ls[1..])
  }

  lemma StepTakesTime(s: State, l: Label)
    requires WellFormed(s) && Enabled(s, l)
    ensures Apply(s, l).shared.now == s.shared.now + if l.Tick? then l.d else 0
  {
    match l
    case Flush(f, a) => ViewDedupe.FlusherKeepsSeen(s.shared, s.flushers[f], a);
    case _ =>
  }

  /** The clock by which the window is measured advances by the ticks of the run, and by nothing else. */
  lemma {:induction false} ClockIsExact(s: State, ls: seq<Label>)
    requires WellFormed(s) && Legal(s, ls)
    ensures Exec(s, ls).shared.now == s.shared.now + Elapsed(ls)
    decreases |ls|
  {
    if ls != [] {
      StepTakesTime(s, ls[0]);
      hide Apply;
      hide Enabled;
      ClockIsExact(Apply(s, ls[0]), ls[1..]);
    }
  }

  /* ---------- Scripts ---------- */

  /** The script is run for `e` by a worker of instance `k`, however it ends. */
  predicate RunsScript(s: State, l: Label, k: nat, e: Event)
    requires WellFormed(s) && Enabled(s, l)
  {
    l.Work? && l.work.Script? && s.workerHome[l.w] == k && s.workers[l.w].event == e
  }

  function Scripts(s: State, ls: seq<Label>, k: nat, e: Event): nat
    requires WellFormed(s) && Legal(s, ls)
    decreases |ls|
  {
    if ls == [] then 0
    else (if RunsScript(s, ls[0], k, e) then 1 else 0) + Scripts(Apply(s, ls[0]), ls[1..], k, e)
  }

  function Marking(pc: WorkerPc, e: Event): nat {
    if pc == WMark(e) then 1 else 0
  }

  /** Workers of instance `k` between the script and the mark for `e`. */
  function InMark(ws: seq<WorkerPc>, homes: seq<nat>, k: nat, e: Event): nat
    requires |ws| == |homes|
    decreases |ws|
  {
    if ws == [] then 0
    else (if homes[0] == k then Marking(ws[0], e) else 0) + InMark(ws[1..], homes[1..], k, e)
  }

  lemma {:induction false} InMarkUpdate(ws: seq<WorkerPc>, homes: seq<nat>, w: nat, pc: WorkerPc, k: nat, e: Event)
    requires |ws| == |homes| && w < |ws|
    ensures InMark(ws[w := pc], homes, k, e) - InMark(ws, homes, k, e)
         == if homes[w] == k then Marking(pc, e) - Marking(ws[w], e) else 0
    decreases |ws|
  {
    if w > 0 {
      InMarkUpdate(ws[1..], homes[1..], w - 1, pc, k, e);
      assert ws[w := pc][1..] == ws[1..][w - 1 := pc];
    } else {
      assert ws[w := pc][1..] == ws[1..];
    }
  }

  lemma {:induction false} InMarkNone(ws: seq<WorkerPc>, homes: seq<nat>, k: nat, e: Event)
    requires |ws| == |homes| && forall w :: 0 <= w < |ws| ==> !ws[w].WMark?
    ensures InMark(ws, homes, k, e) == 0
    decreases |ws|
  {
    if ws != [] {
      InMarkNone(ws[1..], homes[1..], k, e);
    }
  }

  /** Events of instance `k` whose script has been run. */
  function Done(s: State, k: nat, e: Event): nat
    requires WellFormed(s) && k < |s.insts|
  {
    s.insts[k].finished[e] + InMark(s.workers, s.workerHome, k, e)
  }

  lemma WorkerDone(r: Shared, i: Instance, pc: WorkerPc, a: WorkerAct, e: Event)
    requires WorkerCan(i, pc, a)
    ensures WorkerInstance(r, i, pc, a).finished[e] + Marking(WorkerNext(r, i, pc, a), e)
         == i.finished[e] + Marking(pc, e) + if a.Script? && pc.event == e then 1 else 0
  {
  }

  lemma StepScripts(s: State, l: Label, k: nat, e: Event)
    requires WellFormed(s) && Enabled(s, l) && k < |s.insts|
    ensures k < |Apply(s, l).insts|
    ensures Done(Apply(s, l), k, e) == Done(s, k, e) + if RunsScript(s, l, k, e) then 1 else 0
  {
    match l
    case Work(w, a) =>
      var i, pc := s.insts[s.workerHome[w]], s.workers[w];
      WorkerDone(s.shared, i, pc, a, e);
      InMarkUpdate(s.workers, s.workerHome, w, WorkerNext(s.shared, i, pc, a), k, e);
    case _ =>
  }

  /** An event is finished, or about to be, exactly when its script has been run, once for each time. */
  lemma {:induction false} ScriptsAreExact(s: State, ls: seq<Label>, k: nat, e: Event)
    requires WellFormed(s) && Legal(s, ls) && k < |s.insts|
    ensures k < |Exec(s, ls).insts|
    ensures Done(Exec(s, ls), k, e) == Done(s, k, e) + Scripts(s, ls, k, e)
    decreases |ls|
  {
    if ls != [] {
      StepScripts(s, ls[0], k, e);
      hide Apply;
      hide Enabled;
      hide Done;
      hide RunsScript;
      ScriptsAreExact(Apply(s, ls[0]), ls[1..], k, e);
    }
  }

  /**
   After a graceful shutdown in which no Track found a full buffer, the script was run
   for every event exactly as often as the event was tracked.
   */
  lemma GracefulShutdownHandlesEveryTrack(s: State, ls: seq<Label>, k: nat, e: Event)
    requires Initial(s) && Staffed(s) && k < |s.insts|
    requires Legal(s, ls) && GracefulRun(s, ls) && AllStopped(Exec(s, ls)) && NeverFull(s, ls, k)
    ensures Scripts(s, ls, k, e) == Tracks(s, ls, k, e)
  {
    var t := Exec(s, ls);
    InitiallyWinding(s);
    WindingRun(s, ls);
    StoppedState(t);
    EventsAreExact(s, ls, k, e);
    NothingDropped(s, ls, k, e);
    ScriptsAreExact(s, ls, k, e);
    ShutdownHandlesEverything(s, ls, k, e);
    InMarkNone(s.workers, s.workerHome, k, e);
    InMarkNone(t.workers, t.workerHome, k, e);
  }

  /** And the store has grown by exactly the views that the dedupe window let through. */
  lemma GracefulShutdownStoresWhatPassed(s: State, ls: seq<Label>, id: int)
    requires Initial(s) && Staffed(s)
    requires Legal(s, ls) && GracefulRun(s, ls) && AllStopped(Exec(s, ls))
    ensures At(Exec(s, ls).shared.store, id) == At(s.shared.store, id) + ViewDedupe.LetThrough(s, ls, id)
  {
    GracefulShutdownPersistsEverything(s, ls);
    ViewDedupe.CountsAreExact(s, ls, id);
  }
}
