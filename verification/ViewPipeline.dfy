/**
 The view-counting pipeline as a transition system.

 Any number of API instances share one Redis and one database. Each instance has
 a bounded event queue; workers and flushers belong to an instance. A label is
 one atomic step: a channel operation, one Redis command, or one statement of the
 database. A label carries every choice the step makes, the outcome of its
 command included, so the next state is a function of the label.
 */
module ViewPipeline {
  import opened Wrappers
  import opened Limits
  import Dedupe

  const EVENT_BUFFER: nat := 10_000
  const FLUSH_BATCH: nat := 1000

  /** A count per link id; an absent id counts zero. */
  type Tally = map<int, nat>

  function At(m: Tally, id: int): nat {
    if id in m then m[id] else 0
  }

  function Add(m: Tally, d: Tally): Tally {
    map id | id in m.Keys + d.Keys :: At(m, id) + At(d, id)
  }

  function Bump(m: Tally, id: int, n: nat): Tally {
    m[id := At(m, id) + n]
  }

  datatype Event = Event(link: int, visitor: string)

  /** Ok; an error that had no effect; or an error reported after the command took effect. */
  datatype Outcome = Ok | Rejected | Lost

  predicate Applied(o: Outcome) {
    !o.Rejected?
  }

  datatype Instance = Instance(
    queue: seq<Event>,
    cancelled: bool,
    tracked: multiset<Event>,
    dropped: multiset<Event>,
    finished: multiset<Event>)

  datatype WorkerPc = WIdle | WScript(event: Event) | WMark(event: Event) | WExited

  /**
   Where a call of flush stands. `full` says that the batch held FLUSH_BATCH ids,
   `todo` are the popped ids whose GETDEL has not run, `rest` the deltas that
   restore has not put back. TickerGone: the ticker goroutine has returned.
   */
  datatype FlusherPc =
    | FIdle
    | FPop
    | FGet(full: bool, todo: set<int>, deltas: Tally, retry: set<int>)
    | FAdd(full: bool, deltas: Tally)
    | FRestore(rest: Tally)
    | FRestoreMark(id: int, rest: Tally)
    | TickerGone
    | FStopped

  datatype Flusher = Flusher(final: bool, pc: FlusherPc)

  /**
   Redis, the database and the clock, shared by every instance.
   `counted`, `lost` and `doubled` are history: no step reads them.
   */
  datatype Shared = Shared(
    now: int,
    seen: map<Event, int>,
    views: Tally,
    dirty: set<int>,
    store: Tally,
    counted: Tally,
    lost: Tally,
    doubled: Tally)

  /** `workerHome` and `flusherHome` say which instance a process belongs to. */
  datatype State = State(
    shared: Shared,
    insts: seq<Instance>,
    workers: seq<WorkerPc>,
    workerHome: seq<nat>,
    flushers: seq<Flusher>,
    flusherHome: seq<nat>)

  datatype WorkerAct = Receive | Script(out: Outcome) | Mark(out: Outcome) | Exit

  datatype FlusherAct =
    | Start
    | Quit
    | StartFinal
    | Pop(ids: set<int>, out: Outcome)
    | GetDel(id: int, out: Outcome)
    | Retry(out: Outcome)
    | AddViews(out: Outcome)
    | RestoreIncr(id: int, out: Outcome)
    | RestoreMark(out: Outcome)

  datatype Label =
    | Tick(d: nat)
    | Track(inst: nat, event: Event)
    | Cancel(inst: nat)
    | Work(w: nat, work: WorkerAct)
    | Flush(f: nat, flush: FlusherAct)

  function Min(a: nat, b: nat): nat {
    if a < b then a else b
  }

  /* ---------- Track and the workers ---------- */

  /** Track: a full buffer drops the event instead of blocking the request. */
  function PutEvent(i: Instance, e: Event): Instance {
    var i := i.(tracked := i.tracked + multiset{e});
    if |i.queue| < EVENT_BUFFER then i.(queue := i.queue + [e])
    else i.(dropped := i.dropped + multiset{e})
  }

  predicate CountsNow(r: Shared, e: Event) {
    Dedupe.Counts(if e in r.seen then Some(r.seen[e]) else None, r.now)
  }

  /** The tracking script: SET seen NX EX and, if it was set, INCR views. */
  function RunScript(r: Shared, e: Event): Shared {
    if CountsNow(r, e) then
      r.(seen := r.seen[e := r.now + DEDUPE_WINDOW],
         views := Bump(r.views, e.link, 1),
         counted := Bump(r.counted, e.link, 1))
    else r
  }

  predicate WorkerCan(i: Instance, pc: WorkerPc, a: WorkerAct) {
    match a
    case Receive => pc.WIdle? && i.queue != []
    case Script(_) => pc.WScript?
    case Mark(_) => pc.WMark?
    case Exit => pc.WIdle? && i.cancelled && i.queue == []
  }

  function WorkerNext(r: Shared, i: Instance, pc: WorkerPc, a: WorkerAct): WorkerPc
    requires WorkerCan(i, pc, a)
  {
    match a
    case Receive => WScript(i.queue[0])
    case Script(out) => if out.Ok? && CountsNow(r, pc.event) then WMark(pc.event) else WIdle
    case Mark(_) => WIdle
    case Exit => WExited
  }

  /** An event leaves the queue when it is received and is finished when its worker is idle again. */
  function WorkerInstance(r: Shared, i: Instance, pc: WorkerPc, a: WorkerAct): Instance
    requires WorkerCan(i, pc, a)
  {
    if a.Receive? then i.(queue := i.queue[1..])
    else if WorkerNext(r, i, pc, a).WIdle? then i.(finished := i.finished + multiset{pc.event})
    else i
  }

  function WorkerShared(r: Shared, i: Instance, pc: WorkerPc, a: WorkerAct): Shared
    requires WorkerCan(i, pc, a)
  {
    match a
    case Script(out) => if Applied(out) then RunScript(r, pc.event) else r
    case Mark(out) => if Applied(out) then r.(dirty := r.dirty + {pc.event.link}) else r
    case _ => r
  }

  /* ---------- flush ---------- */

  predicate FlusherCan(r: Shared, x: Flusher, cancelled: bool, workersExited: bool, a: FlusherAct) {
    match a
    case Start => x.pc.FIdle?
    case Quit => x.pc.FIdle? && cancelled
    case StartFinal => x.pc.TickerGone? && workersExited
    case Pop(ids, _) => x.pc.FPop? && ids <= r.dirty && |ids| == Min(FLUSH_BATCH, |r.dirty|)
    case GetDel(id, _) => x.pc.FGet? && id in x.pc.todo
    case Retry(out) => x.pc.FGet? && x.pc.todo == {} && (out.Ok? || x.pc.retry != {})
    case AddViews(_) => x.pc.FAdd?
    case RestoreIncr(id, _) => x.pc.FRestore? && id in x.pc.rest
    case RestoreMark(_) => x.pc.FRestoreMark?
  }

  /** flush returns: the ticker goroutine waits again, or Run returns. */
  function Return(x: Flusher): FlusherPc {
    if x.final then FStopped else FIdle
  }

  /** The end of one batch: go around the loop if it was full. */
  function EndBatch(x: Flusher, full: bool): FlusherPc {
    if full then FPop else Return(x)
  }
  /** The next position of a call of flush; its deltas come from the counters GETDEL reads. */
  function FlusherNext(r: Shared, x: Flusher, a: FlusherAct): Flusher
    requires FlusherCan(r, x, true, true, a)
  {
    match a
    case Start => x.(pc := FPop)
    case Quit => x.(pc := TickerGone)
    case StartFinal => Flusher(true, FPop)
    case Pop(ids, out) =>
      x.(pc := if !out.Ok? || ids == {} then Return(x) else FGet(|ids| >= FLUSH_BATCH, ids, map[], {}))
    case GetDel(id, out) =>
      var FGet(full, todo, deltas, retry) := x.pc;
      var n := At(r.views, id);
      x.(pc := FGet(full, todo - {id},
                    if out.Ok? && n > 0 then deltas[id := n] else deltas,
                    if out.Ok? then retry else retry + {id}))
    case Retry(_) =>
      x.(pc := if x.pc.deltas != map[] then FAdd(x.pc.full, x.pc.deltas) else EndBatch(x, x.pc.full))
    case AddViews(out) =>
      x.(pc := if out.Ok? then EndBatch(x, x.pc.full) else FRestore(x.pc.deltas))
    case RestoreIncr(id, _) => x.(pc := FRestoreMark(id, x.pc.rest - {id}))
    case RestoreMark(_) =>
      x.(pc := if x.pc.rest == map[] then Return(x) else FRestore(x.pc.rest))
  }

  /** What the command of a flusher's step does to Redis and the database. */
  function FlusherShared(r: Shared, x: Flusher, a: FlusherAct): Shared
    requires FlusherCan(r, x, true, true, a)
  {
    match a
    case Pop(ids, out) => if Applied(out) then r.(dirty := r.dirty - ids) else r
    case GetDel(id, out) =>
      if out.Ok? then r.(views := r.views - {id})
      else if out.Lost? then r.(views := r.views - {id}, lost := Bump(r.lost, id, At(r.views, id)))
      else r
    case Retry(out) => if Applied(out) then r.(dirty := r.dirty + x.pc.retry) else r
    case AddViews(out) =>
      if out.Ok? then r.(store := Add(r.store, x.pc.deltas))
      else if out.Lost? then r.(store := Add(r.store, x.pc.deltas), doubled := Add(r.doubled, x.pc.deltas))
      else r
    case RestoreIncr(id, out) =>
      if Applied(out) then r.(views := Bump(r.views, id, At(x.pc.rest, id)))
      else r.(lost := Bump(r.lost, id, At(x.pc.rest, id)))
    case RestoreMark(out) => if Applied(out) then r.(dirty := r.dirty + {x.pc.id}) else r
    case _ => r
  }

  /* ---------- The whole system ---------- */

  predicate WellFormed(s: State) {
    && |s.workerHome| == |s.workers| && |s.flusherHome| == |s.flushers|
    && (forall w :: 0 <= w < |s.workerHome| ==> s.workerHome[w] < |s.insts|)
    && (forall f :: 0 <= f < |s.flusherHome| ==> s.flusherHome[f] < |s.insts|)
  }

  predicate WorkersExited(s: State, inst: nat)
    requires WellFormed(s)
  {
    forall w :: 0 <= w < |s.workers| && s.workerHome[w] == inst ==> s.workers[w].WExited?
  }

  predicate Enabled(s: State, l: Label)
    requires WellFormed(s)
  {
    match l
    case Tick(_) => true
    case Track(i, _) => i < |s.insts|
    case Cancel(i) => i < |s.insts|
    case Work(w, a) => w < |s.workers| && WorkerCan(s.insts[s.workerHome[w]], s.workers[w], a)
    case Flush(f, a) =>
      && f < |s.flushers|
      && FlusherCan(s.shared, s.flushers[f],
                    s.insts[s.flusherHome[f]].cancelled, WorkersExited(s, s.flusherHome[f]), a)
  }

  function SetInst(s: State, i: nat, inst: Instance): State
    requires i < |s.insts|
  {
    s.(insts := s.insts[i := inst])
  }

  function Apply(s: State, l: Label): (t: State)
    requires WellFormed(s) && Enabled(s, l)
    ensures WellFormed(t) && |t.insts| == |s.insts|
    ensures t.workerHome == s.workerHome && t.flusherHome == s.flusherHome
  {
    match l
    case Tick(d) => s.(shared := s.shared.(now := s.shared.now + d))
    case Track(i, e) => SetInst(s, i, PutEvent(s.insts[i], e))
    case Cancel(i) => SetInst(s, i, s.insts[i].(cancelled := true))
    case Work(w, a) =>
      var h, pc := s.workerHome[w], s.workers[w];
      var i := s.insts[h];
      SetInst(s, h, WorkerInstance(s.shared, i, pc, a))
      .(shared := WorkerShared(s.shared, i, pc, a), workers := s.workers[w := WorkerNext(s.shared, i, pc, a)])
    case Flush(f, a) =>
      var x := s.flushers[f];
      s.(shared := FlusherShared(s.shared, x, a), flushers := s.flushers[f := FlusherNext(s.shared, x, a)])
  }

  predicate Steps(s: State, l: Label, t: State) {
    WellFormed(s) && Enabled(s, l) && Apply(s, l) == t
  }

  /** `ls` can be run from `s`, step by step. */
  predicate Legal(s: State, ls: seq<Label>)
    requires WellFormed(s)
    decreases |ls|
  {
    ls == [] || (Enabled(s, ls[0]) && Legal(Apply(s, ls[0]), ls[1..]))
  }

  function Exec(s: State, ls: seq<Label>): (t: State)
    requires WellFormed(s) && Legal(s, ls)
    ensures WellFormed(t)
    decreases |ls|
  {
    if ls == [] then s else Exec(Apply(s, ls[0]), ls[1..])
  }

  /** Nothing has happened yet: empty Redis, stored counts as they are, everybody idle. */
  predicate Initial(s: State) {
    && WellFormed(s)
    && s.shared == Shared(s.shared.now, map[], map[], {}, s.shared.store, s.shared.store, map[], map[])
    && (forall i :: 0 <= i < |s.insts| ==>
          s.insts[i] == Instance([], false, multiset{}, multiset{}, multiset{}))
    && (forall w :: 0 <= w < |s.workers| ==> s.workers[w].WIdle?)
    && (forall f :: 0 <= f < |s.flushers| ==> s.flushers[f] == Flusher(false, FIdle))
  }

  lemma LegalCons(s: State, l: Label, ls: seq<Label>)
    requires WellFormed(s) && Enabled(s, l) && Legal(Apply(s, l), ls)
    ensures Legal(s, [l] + ls) && Exec(s, [l] + ls) == Exec(Apply(s, l), ls)
  {
    assert ([l] + ls)[1..] == ls;
  }
}
