/** The dedupe window inside the running pipeline: which executions of the script count. */
module ViewDedupe {
  import opened Wrappers
  import opened ViewPipeline
  import ViewConservation
  import opened Limits
  import Dedupe

  /** The step runs the script for `e`. */
  predicate Scripts(s: State, l: Label, e: Event)
    requires WellFormed(s) && Enabled(s, l)
  {
    && l.Work? && l.work.Script? && Applied(l.work.out) && s.workers[l.w].event == e
  }

  /** When the script ran for `e`, over a whole run. */
  function ScriptTimes(s: State, ls: seq<Label>, e: Event): seq<int>
    requires WellFormed(s) && Legal(s, ls)
    decreases |ls|
  {
    if ls == [] then []
    else (if Scripts(s, ls[0], e) then [s.shared.now] else []) + ScriptTimes(Apply(s, ls[0]), ls[1..], e)
  }

  /** When a step added a view of `e.link` for `e`: the script ran and the seen key was set. */
  function Recorded(s: State, l: Label, e: Event): seq<int>
    requires WellFormed(s) && Enabled(s, l)
  {
    if Scripts(s, l, e) && At(Apply(s, l).shared.counted, e.link) > At(s.shared.counted, e.link)
    then [s.shared.now] else []
  }

  /** When the script counted `e`, over a whole run. */
  function CountTimes(s: State, ls: seq<Label>, e: Event): seq<int>
    requires WellFormed(s) && Legal(s, ls)
    decreases |ls|
  {
    if ls == [] then [] else Recorded(s, ls[0], e) + CountTimes(Apply(s, ls[0]), ls[1..], e)
  }

  function Expiry(s: State, e: Event): Option<int> {
    if e in s.shared.seen then Some(s.shared.seen[e]) else None
  }

  lemma StepTouches(s: State, l: Label, e: Event)
    requires WellFormed(s) && Enabled(s, l)
    ensures var t := Apply(s, l);
      && s.shared.now <= t.shared.now
      && Expiry(t, e) == (if Scripts(s, l, e) then Dedupe.Touch(Expiry(s, e), s.shared.now) else Expiry(s, e))
      && (Scripts(s, l, e) ==>
            (At(t.shared.counted, e.link) > At(s.shared.counted, e.link)
             <==> Dedupe.Counts(Expiry(s, e), s.shared.now)))
  {
    match l
    case Flush(f, a) => FlusherKeepsSeen(s.shared, s.flushers[f], a);
    case _ =>
  }

  lemma FlusherKeepsSeen(r: Shared, x: Flusher, a: FlusherAct)
    requires FlusherCan(r, x, true, true, a)
    ensures FlusherShared(r, x, a).seen == r.seen && FlusherShared(r, x, a).now == r.now
  {
    if !ViewConservation.MovesViews(a) {
      ViewConservation.OtherShared(r, x, a);
      hide FlusherShared;
    }
  }

  lemma StepRecords(s: State, l: Label, e: Event)
    requires WellFormed(s) && Enabled(s, l)
    ensures var x, now := Expiry(s, e), s.shared.now;
      && now <= Apply(s, l).shared.now
      && Expiry(Apply(s, l), e) == (if Scripts(s, l, e) then Dedupe.Touch(x, now) else x)
      && Recorded(s, l, e) == if Scripts(s, l, e) && Dedupe.Counts(x, now) then [now] else []
  {
    StepTouches(s, l, e);
    hide Apply;
  }

  /** One more execution of the script in front of the others. */
  lemma OneMore(expiry: Option<int>, now: int, ts: seq<int>)
    requires Dedupe.Ordered(ts) && forall t :: t in ts ==> now <= t
    ensures Dedupe.Ordered([now] + ts)
    ensures Dedupe.Counted(expiry, [now] + ts)
         == (if Dedupe.Counts(expiry, now) then [now] else []) + Dedupe.Counted(Dedupe.Touch(expiry, now), ts)
  {
    assert ([now] + ts)[1..] == ts;
    assert forall j :: 0 <= j < |ts| ==> ts[j] in ts;
  }

  /** In every interleaving, the views counted for one visitor are those of the greedy window. */
  lemma {:induction false} RunsDedupe(s: State, ls: seq<Label>, e: Event)
    requires WellFormed(s) && Legal(s, ls)
    ensures CountTimes(s, ls, e) == Dedupe.Counted(Expiry(s, e), ScriptTimes(s, ls, e))
    ensures Dedupe.Ordered(ScriptTimes(s, ls, e))
    ensures forall t :: t in ScriptTimes(s, ls, e) ==> s.shared.now <= t
    decreases |ls|
  {
    hide WellFormed;
    hide Apply;
    hide Enabled;
    hide Expiry;
    hide Scripts;
    hide Recorded;
    if ls != [] {
      var t, rest := Apply(s, ls[0]), ScriptTimes(Apply(s, ls[0]), ls[1..], e);
      StepRecords(s, ls[0], e);
      RunsDedupe(t, ls[1..], e);
      OneMore(Expiry(s, e), s.shared.now, rest);
      hide Dedupe.Ordered;
      hide Dedupe.Counted;
      hide Dedupe.Touch;
      assert [] + rest == rest && [] + CountTimes(t, ls[1..], e) == CountTimes(t, ls[1..], e);
    }
  }

  /* ---------- The counters ---------- */

  /**
   Views of `id` that the window lets through in a run, over all visitors: from the
   labels, the clock and the seen keys alone.
   */
  function LetThrough(s: State, ls: seq<Label>, id: int): nat
    requires WellFormed(s) && Legal(s, ls)
    decreases |ls|
  {
    if ls == [] then 0
    else (if Passes(s, ls[0], id) then 1 else 0) + LetThrough(Apply(s, ls[0]), ls[1..], id)
  }

  /** The step runs the script for a visitor of `id` whose seen key does not exist. */
  predicate Passes(s: State, l: Label, id: int)
    requires WellFormed(s) && Enabled(s, l)
  {
    && l.Work? && l.work.Script? && l.work.out != Rejected && s.workers[l.w].event.link == id
    && Dedupe.Counts(Expiry(s, s.workers[l.w].event), s.shared.now)
  }

  lemma StepCounts(s: State, l: Label, id: int)
    requires WellFormed(s) && Enabled(s, l)
    ensures At(Apply(s, l).shared.counted, id) == At(s.shared.counted, id) + if Passes(s, l, id) then 1 else 0
  {
    match l
    case Flush(f, a) => FlusherCountsNothing(s.shared, s.flushers[f], a);
    case _ =>
  }

  lemma FlusherCountsNothing(r: Shared, x: Flusher, a: FlusherAct)
    requires FlusherCan(r, x, true, true, a)
    ensures FlusherShared(r, x, a).counted == r.counted
  {
    if !ViewConservation.MovesViews(a) {
      ViewConservation.OtherShared(r, x, a);
      hide FlusherShared;
    }
  }

  /** In every run the views counted are exactly those the window let through: one each, for every link. */
  lemma {:induction false} CountsAreExact(s: State, ls: seq<Label>, id: int)
    requires WellFormed(s) && Legal(s, ls)
    ensures At(Exec(s, ls).shared.counted, id) == At(s.shared.counted, id) + LetThrough(s, ls, id)
    decreases |ls|
  {
    hide Apply;
    hide Enabled;
    hide Passes;
    hide At;
    if ls != [] {
      StepCounts(s, ls[0], id);
      CountsAreExact(Apply(s, ls[0]), ls[1..], id);
    }
  }

  /**
   From the start of any run: counted views are one window apart, an execution that
   does not count falls into the window of one that did, and no other set of
   executions one window apart is larger.
   */
  lemma CountsAreBest(s: State, ls: seq<Label>, e: Event, us: seq<int>)
    requires Initial(s) && Legal(s, ls)
    requires Dedupe.Separated(us) && Dedupe.Subset(us, ScriptTimes(s, ls, e))
    ensures var counted, window := CountTimes(s, ls, e), 30 * 60 * 1_000_000_000;
      && (forall i :: 0 < i < |counted| ==> counted[i - 1] + window <= counted[i])
      && |us| <= |counted|
      && forall t :: t in ScriptTimes(s, ls, e) && t !in counted ==>
           exists c :: c in counted && c <= t < c + window
  {
    var ts := ScriptTimes(s, ls, e);
    RunsDedupe(s, ls, e);
    Dedupe.CountedIsSeparated(Expiry(s, e), ts);
    Dedupe.CountedIsLargest(Expiry(s, e), ts, us);
    forall t | t in ts && t !in CountTimes(s, ls, e)
      ensures exists c :: c in CountTimes(s, ls, e) && c <= t < c + DEDUPE_WINDOW
    {
      Dedupe.UncountedIsCovered(Expiry(s, e), ts, t);
    }
  }
}
