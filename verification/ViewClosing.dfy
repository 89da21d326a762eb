/** A graceful shutdown from beginning to end: one view is tracked, counted, flushed at the end and stored. */
module ViewClosing {
  import opened ViewPipeline
  import opened ViewShutdown
  import opened Limits
  import ViewLoss

  function Closing(n: nat, e: Event): State {
    var none := multiset{};
    var one := map[e.link := 1];
    var i := Instance([], true, multiset{e}, none, multiset{e});
    var marked := Shared(0, map[e := DEDUPE_WINDOW], one, {e.link}, map[], one, map[], map[]);
    var popped := marked.(dirty := {});
    var taken := popped.(views := map[]);
    var stored := taken.(store := one);
    match n
    case 5 => One(marked, i, WIdle, Flusher(false, FIdle))
    case 6 => One(marked, i, WExited, Flusher(false, FIdle))
    case 7 => One(marked, i, WExited, Flusher(false, TickerGone))
    case 8 => One(marked, i, WExited, Flusher(true, FPop))
    case 9 => One(popped, i, WExited, Flusher(true, FGet(false, {e.link}, map[], {})))
    case 10 => One(taken, i, WExited, Flusher(true, FGet(false, {}, one, {})))
    case 11 => One(taken, i, WExited, Flusher(true, FAdd(false, one)))
    case _ => if n < 5 then ViewLoss.Stage(n, e) else One(stored, i, WExited, Flusher(true, FStopped))
  }

  function One(r: Shared, i: Instance, w: WorkerPc, f: Flusher): State {
    State(r, [i], [w], [0], [f], [0])
  }

  function ClosingLabel(n: nat, e: Event): Label {
    match n
    case 4 => Cancel(0)
    case 5 => Work(0, Exit)
    case 6 => Flush(0, Quit)
    case 7 => Flush(0, StartFinal)
    case 8 => Flush(0, Pop({e.link}, Ok))
    case 9 => Flush(0, GetDel(e.link, Ok))
    case 10 => Flush(0, Retry(Ok))
    case _ => if n < 4 then ViewLoss.StageLabel(n, e) else Flush(0, AddViews(Ok))
  }

  predicate GracefulStep(s: State, l: Label, t: State) {
    Steps(s, l, t) && Graceful(s, l)
  }

  lemma EarlyStep(n: nat, e: Event)
    requires n < 4
    ensures GracefulStep(Closing(n, e), ClosingLabel(n, e), Closing(n + 1, e))
  {
    ViewLoss.StageStep(n, e);
    hide Apply;
  }

  lemma LeavingStep(n: nat, e: Event)
    requires 4 <= n < 6
    ensures GracefulStep(Closing(n, e), ClosingLabel(n, e), Closing(n + 1, e))
  {
    var u, t := Apply(Closing(n, e), ClosingLabel(n, e)), Closing(n + 1, e);
    assert u.insts == t.insts && u.workers == t.workers;
  }

  lemma TickerStep(n: nat, e: Event)
    requires 6 <= n < 8
    ensures GracefulStep(Closing(n, e), ClosingLabel(n, e), Closing(n + 1, e))
  {
    var u, t := Apply(Closing(n, e), ClosingLabel(n, e)), Closing(n + 1, e);
    assert u.flushers == t.flushers;
  }

  lemma LastFlushStep(n: nat, e: Event)
    requires 8 <= n < 12
    ensures GracefulStep(Closing(n, e), ClosingLabel(n, e), Closing(n + 1, e))
  {
    var u, t := Apply(Closing(n, e), ClosingLabel(n, e)), Closing(n + 1, e);
    assert |{e.link}| == 1 && {e.link} - {e.link} == {} && map[e.link := 1] - {e.link} == map[];
    assert e.link in map[e.link := 1];
    assert u.flushers == t.flushers;
    assert u.shared == t.shared;
  }

  lemma {:induction false} ClosingRun(n: nat, e: Event) returns (ls: seq<Label>)
    requires n <= 12
    ensures WellFormed(Closing(n, e)) && Legal(Closing(n, e), ls)
    ensures GracefulRun(Closing(n, e), ls) && Exec(Closing(n, e), ls) == Closing(12, e)
    decreases 12 - n
  {
    hide Closing;
    hide ClosingLabel;
    hide Apply;
    hide Graceful;
    if n == 12 {
      LastFlushStep(11, e);
      ls := [];
    } else {
      if n < 4 {
        EarlyStep(n, e);
      } else if n < 6 {
        LeavingStep(n, e);
      } else if n < 8 {
        TickerStep(n, e);
      } else {
        LastFlushStep(n, e);
      }
      ls := ClosingRun(n + 1, e);
      LegalCons(Closing(n, e), ClosingLabel(n, e), ls);
      assert ([ClosingLabel(n, e)] + ls)[1..] == ls;
      ls := [ClosingLabel(n, e)] + ls;
    }
  }

  lemma Ends(e: Event)
    ensures Initial(Closing(0, e)) && Staffed(Closing(0, e)) && AllStopped(Closing(12, e))
    ensures At(Closing(12, e).shared.store, e.link) == 1
  {
    assert 0 in Closing(0, e).workerHome && 0 in Closing(0, e).flusherHome;
  }

  /** Graceful shutdown is possible, and then the view is in the store. */
  lemma GracefulShutdownHappens(e: Event) returns (s: State, ls: seq<Label>)
    ensures Initial(s) && Staffed(s) && Legal(s, ls) && GracefulRun(s, ls)
    ensures AllStopped(Exec(s, ls)) && At(Exec(s, ls).shared.store, e.link) == 1
  {
    Ends(e);
    s := Closing(0, e);
    ls := ClosingRun(0, e);
  }
}
