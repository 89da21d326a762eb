/**
 One cached document and everybody who touches it: readers that load it through
 single flights, one per API instance, and writers that commit to the repository
 and then delete the cached copy, at once and again half a second later.

 The link cache and the snapshot cache are both instances. Documents are the
 records the cache stores; None is "no such document".
 */
module CacheAside {
  import opened Wrappers
  import opened Limits

  /**
   `deadline` bounds a load, `ttl` to `ttl + spread - 1` is the lifetime of a found
   document, `ttlMissing` that of a negative entry, if there are any.
   */
  datatype Config = Config(deadline: int, ttl: int, spread: int, ttlMissing: Option<int>)

  predicate ValidConfig(c: Config) {
    0 < c.deadline && 0 < c.ttl && 0 < c.spread && (c.ttlMissing.Some? ==> 0 < c.ttlMissing.value)
  }

  /** An hour plus up to ten percent of jitter; a minute for "not found". */
  const LINKS := Config(LOAD_TIMEOUT, LINK_TTL, LINK_JITTER, Some(NOT_FOUND_TTL))
  const SNAPSHOTS := Config(LOAD_TIMEOUT, SNAPSHOT_TTL, 1, None)

  /**
   What the environment promises: the longest time from database read to cache
   write, and whether the delayed delete always succeeds.
   */
  datatype Env = Env(config: Config, maxLoad: int, secondDeleteSucceeds: bool)

  /** A committed value of the document. `author` tells a creation from an update. */
  datatype Author = Nobody | Creator | Updater

  datatype Version<V> = Version(at: int, value: Option<V>, author: Author)

  /** `ver` and `readAt` record where the entry came from; no step reads them. */
  datatype Slot<V> = Empty | Entry(value: Option<V>, expires: int, ver: nat, readAt: int)

  /** A load: started, with its database read done, with its cache write behind it. */
  datatype Flight =
    | NoFlight
    | Started(at: int)
    | Read(at: int, ver: nat, readAt: int)
    | Loaded(at: int, ver: nat, readAt: int)

  /** A writer after its commit: before the first delete, before the second, after it. */
  datatype Writer =
    | Committed(ver: nat)
    | Scheduled(ver: nat, fireAt: int)
    | Finished(ver: nat, doneAt: int)

  datatype State<V> = State(
    now: int,
    history: seq<Version<V>>,
    slot: Slot<V>,
    flights: seq<Flight>,
    writers: seq<Writer>)

  datatype Label<V> =
    | Tick(d: nat)
    | Create(created: V)
    | Commit(value: Option<V>)
    | FirstDelete(w: nat, applied: bool)
    | SecondDelete(w: nat, applied: bool)
    | StartFlight(f: nat)
    | ReadRow(f: nat)
    | WriteCache(f: nat, ttl: int, applied: bool)
    | SkipCache(f: nat)
    | Return(f: nat)
    | Fail(f: nat)
    | Hit

  ghost function Last<V>(s: State<V>): nat
    requires s.history != []
  {
    |s.history| - 1
  }

  ghost predicate TtlAllowed<V>(c: Config, value: Option<V>, ttl: int) {
    if value.Some? then c.ttl <= ttl < c.ttl + c.spread
    else c.ttlMissing.Some? && ttl == c.ttlMissing.value
  }

  ghost predicate Cacheable<V>(c: Config, value: Option<V>) {
    value.Some? || c.ttlMissing.Some?
  }

  /** A live entry: Redis still has the key. */
  ghost predicate Visible<V>(s: State<V>) {
    s.slot.Entry? && s.now < s.slot.expires
  }

  ghost predicate Enabled<V>(env: Env, s: State<V>, l: Label<V>)
    requires WellFormed(s)
  {
    match l
    case Tick(_) => true
    case Create(_) => |s.history| == 1 && s.history[0].value.None?
    case Commit(_) => s.history[Last(s)].value.Some?
    case FirstDelete(w, _) => w < |s.writers| && s.writers[w].Committed?
    case SecondDelete(w, applied) =>
      && w < |s.writers| && s.writers[w].Scheduled? && s.writers[w].fireAt <= s.now
      && (applied || !env.secondDeleteSucceeds)
    case StartFlight(f) => f < |s.flights| && s.flights[f].NoFlight?
    case ReadRow(f) =>
      f < |s.flights| && s.flights[f].Started? && s.now <= s.flights[f].at + env.config.deadline
    case WriteCache(f, ttl, applied) =>
      && f < |s.flights| && s.flights[f].Read?
      && Cacheable(env.config, s.history[s.flights[f].ver].value)
      && TtlAllowed(env.config, s.history[s.flights[f].ver].value, ttl)
      && (applied ==> s.now <= s.flights[f].at + env.config.deadline && s.now <= s.flights[f].readAt + env.maxLoad)
    case SkipCache(f) =>
      f < |s.flights| && s.flights[f].Read? && !Cacheable(env.config, s.history[s.flights[f].ver].value)
    case Return(f) => f < |s.flights| && s.flights[f].Loaded? && s.now <= s.flights[f].at + env.config.deadline
    case Fail(f) => f < |s.flights| && !s.flights[f].NoFlight?
    case Hit => Visible(s)
  }

  ghost predicate WellFormed<V>(s: State<V>) {
    && s.history != []
    && (s.slot.Entry? ==> s.slot.ver < |s.history| && s.slot.value == s.history[s.slot.ver].value)
    && (forall f :: 0 <= f < |s.flights| && (s.flights[f].Read? || s.flights[f].Loaded?) ==>
          s.flights[f].ver < |s.history|)
    && (forall w :: 0 <= w < |s.writers| ==> s.writers[w].ver < |s.history|)
  }

  ghost function SetFlight<V>(s: State<V>, f: nat, x: Flight): State<V>
    requires f < |s.flights|
  {
    s.(flights := s.flights[f := x])
  }

  ghost function SetWriter<V>(s: State<V>, w: nat, x: Writer): State<V>
    requires w < |s.writers|
  {
    s.(writers := s.writers[w := x])
  }

  ghost function Clear<V>(s: State<V>, applied: bool): State<V> {
    if applied then s.(slot := Empty) else s
  }

  ghost function Apply<V>(env: Env, s: State<V>, l: Label<V>): (t: State<V>)
    requires WellFormed(s) && Enabled(env, s, l)
    ensures WellFormed(t)
  {
    match l
    case Tick(d) => s.(now := s.now + d)
    case Create(v) => s.(history := s.history + [Version(s.now, Some(v), Creator)])
    case Commit(v) =>
      s.(history := s.history + [Version(s.now, v, Updater)], writers := s.writers + [Committed(|s.history|)])
    case FirstDelete(w, applied) =>
      SetWriter(Clear(s, applied), w, Scheduled(s.writers[w].ver, s.now + SECOND_DELETE))
    case SecondDelete(w, applied) =>
      SetWriter(Clear(s, applied), w, Finished(s.writers[w].ver, s.now))
    case StartFlight(f) => SetFlight(s, f, Started(s.now))
    case ReadRow(f) => SetFlight(s, f, Read(s.flights[f].at, Last(s), s.now))
    case WriteCache(f, ttl, applied) =>
      var x := s.flights[f];
      var t := SetFlight(s, f, Loaded(x.at, x.ver, x.readAt));
      if applied then t.(slot := Entry(s.history[x.ver].value, s.now + ttl, x.ver, x.readAt)) else t
    case SkipCache(f) => SetFlight(s, f, Loaded(s.flights[f].at, s.flights[f].ver, s.flights[f].readAt))
    case Return(f) => SetFlight(s, f, NoFlight)
    case Fail(f) => SetFlight(s, f, NoFlight)
    case Hit => s
  }

  ghost predicate Legal<V>(env: Env, s: State<V>, ls: seq<Label<V>>)
    requires WellFormed(s)
    decreases |ls|
  {
    ls == [] || (Enabled(env, s, ls[0]) && Legal(env, Apply(env, s, ls[0]), ls[1..]))
  }

  ghost function Exec<V>(env: Env, s: State<V>, ls: seq<Label<V>>): (t: State<V>)
    requires WellFormed(s) && Legal(env, s, ls)
    ensures WellFormed(t)
    decreases |ls|
  {
    if ls == [] then s else Exec(env, Apply(env, s, ls[0]), ls[1..])
  }

  lemma LegalCons<V>(env: Env, s: State<V>, l: Label<V>, ls: seq<Label<V>>)
    requires WellFormed(s) && Enabled(env, s, l) && Legal(env, Apply(env, s, l), ls)
    ensures Legal(env, s, [l] + ls) && Exec(env, s, [l] + ls) == Exec(env, Apply(env, s, l), ls)
  {
    assert ([l] + ls)[1..] == ls;
  }

  /** An empty cache, no load or writer under way, and the document as it was. */
  ghost predicate Initial<V>(s: State<V>) {
    && |s.history| == 1 && s.history[0].at <= s.now && s.slot.Empty? && s.writers == []
    && forall f :: 0 <= f < |s.flights| ==> s.flights[f].NoFlight?
  }

  /* ---------- Invariants ---------- */

  /** Version `ver` was current at the instant `at`. */
  ghost predicate CurrentAt<V>(history: seq<Version<V>>, ver: nat, at: int) {
    && ver < |history| && history[ver].at <= at
    && (ver + 1 < |history| ==> at <= history[ver + 1].at)
  }

  ghost predicate Chronicle<V>(s: State<V>) {
    && (forall i, j :: 0 <= i < j < |s.history| ==> s.history[i].at <= s.history[j].at)
    && (forall i :: 0 <= i < |s.history| ==> s.history[i].at <= s.now)
    && (forall i :: 0 < i < |s.history| ==> !s.history[i].author.Nobody?)
    && (forall i :: 1 < i < |s.history| ==> s.history[i].author.Updater?)
    && (|s.history| > 1 && s.history[1].author.Creator? ==> s.history[0].value.None?)
  }

  /** A load under way started before it read, and read what was current. */
  ghost predicate SoundFlight<V>(s: State<V>, x: Flight) {
    && (x.Started? ==> x.at <= s.now)
    && (x.Read? || x.Loaded? ==> x.at <= x.readAt <= s.now && CurrentAt(s.history, x.ver, x.readAt))
  }

  /** An entry was read not long before it was written, and expires its lifetime later. */
  ghost predicate SoundSlot<V>(env: Env, s: State<V>) {
    s.slot.Entry? ==>
      && s.slot.readAt <= s.now && CurrentAt(s.history, s.slot.ver, s.slot.readAt)
      && s.slot.expires <= s.slot.readAt + env.config.deadline + MaxTtl(env.config, s.slot.value)
  }

  ghost function MaxTtl<V>(c: Config, value: Option<V>): int {
    if value.Some? then c.ttl + c.spread - 1
    else if c.ttlMissing.Some? then c.ttlMissing.value else 0
  }

  /** A second delete is never closer than half a second to its commit. */
  ghost predicate SoundWriter<V>(s: State<V>, x: Writer) {
    && 0 < x.ver < |s.history| && s.history[x.ver].author.Updater?
    && (x.Scheduled? ==> s.history[x.ver].at + SECOND_DELETE <= x.fireAt)
    && (x.Finished? ==> s.history[x.ver].at + SECOND_DELETE <= x.doneAt <= s.now)
  }

  ghost predicate SoundFlights<V>(s: State<V>) {
    forall f :: 0 <= f < |s.flights| ==> SoundFlight(s, s.flights[f])
  }

  ghost predicate SoundWriters<V>(s: State<V>) {
    forall w :: 0 <= w < |s.writers| ==> SoundWriter(s, s.writers[w])
  }

  ghost predicate Sound<V>(env: Env, s: State<V>) {
    WellFormed(s) && Chronicle(s) && SoundSlot(env, s) && SoundFlights(s) && SoundWriters(s)
  }

  lemma ChronicleStep<V>(env: Env, s: State<V>, l: Label<V>)
    requires Sound(env, s) && Enabled(env, s, l)
    ensures Chronicle(Apply(env, s, l))
  {
  }

  lemma SlotStep<V>(env: Env, s: State<V>, l: Label<V>)
    requires Sound(env, s) && Enabled(env, s, l)
    ensures SoundSlot(env, Apply(env, s, l))
  {
  }

  lemma FlightsStep<V>(env: Env, s: State<V>, l: Label<V>)
    requires Sound(env, s) && Enabled(env, s, l)
    ensures SoundFlights(Apply(env, s, l))
  {
    var t := Apply(env, s, l);
    forall f | 0 <= f < |t.flights| ensures SoundFlight(t, t.flights[f]) {
      assert SoundFlight(s, s.flights[f]);
    }
  }

  lemma WritersStep<V>(env: Env, s: State<V>, l: Label<V>)
    requires Sound(env, s) && Enabled(env, s, l)
    ensures SoundWriters(Apply(env, s, l))
  {
    var t := Apply(env, s, l);
    forall w | 0 <= w < |t.writers| ensures SoundWriter(t, t.writers[w]) {
      assert w < |s.writers| ==> SoundWriter(s, s.writers[w]);
    }
  }

  lemma SoundStep<V>(env: Env, s: State<V>, l: Label<V>)
    requires Sound(env, s) && Enabled(env, s, l)
    ensures Sound(env, Apply(env, s, l))
  {
    hide Apply;
    ChronicleStep(env, s, l);
    SlotStep(env, s, l);
    FlightsStep(env, s, l);
    WritersStep(env, s, l);
  }

  lemma {:induction false} SoundRun<V>(env: Env, s: State<V>, ls: seq<Label<V>>)
    requires WellFormed(s) && Sound(env, s) && Legal(env, s, ls)
    ensures Sound(env, Exec(env, s, ls))
    decreases |ls|
  {
    hide Sound;
    hide Apply;
    if ls != [] {
      SoundStep(env, s, ls[0]);
      SoundRun(env, Apply(env, s, ls[0]), ls[1..]);
    }
  }

  /** What one step commits. */
  ghost function ChangeOf<V>(now: int, l: Label<V>): seq<(int, Option<V>)> {
    match l
    case Create(v) => [(now, Some(v))]
    case Commit(v) => [(now, v)]
    case _ => []
  }

  /** The changes of the document in a run, and when they were committed, read off its labels. */
  ghost function Changes<V>(now: int, ls: seq<Label<V>>): seq<(int, Option<V>)>
    decreases |ls|
  {
    if ls == [] then []
    else ChangeOf(now, ls[0]) + Changes(if ls[0].Tick? then now + ls[0].d else now, ls[1..])
  }

  ghost function Recorded<V>(history: seq<Version<V>>): seq<(int, Option<V>)> {
    seq(|history|, i requires 0 <= i < |history| => (history[i].at, history[i].value))
  }

  /** The history of the document is what was committed, in that order and at those instants. */
  lemma {:induction false} HistoryIsCommits<V>(env: Env, s: State<V>, ls: seq<Label<V>>)
    requires WellFormed(s) && Legal(env, s, ls)
    ensures Recorded(Exec(env, s, ls).history) == Recorded(s.history) + Changes(s.now, ls)
    decreases |ls|
  {
    if ls == [] {
      assert Recorded(s.history) + [] == Recorded(s.history);
    } else {
      StepCommits(env, s, ls[0]);
      hide Apply;
      hide ChangeOf;
      HistoryIsCommits(env, Apply(env, s, ls[0]), ls[1..]);
    }
  }

  lemma StepCommits<V>(env: Env, s: State<V>, l: Label<V>)
    requires WellFormed(s) && Enabled(env, s, l)
    ensures Recorded(Apply(env, s, l).history) == Recorded(s.history) + ChangeOf(s.now, l)
    ensures Apply(env, s, l).now == if l.Tick? then s.now + l.d else s.now
  {
  }

  lemma InitialIsSound<V>(env: Env, s: State<V>)
    requires Initial(s)
    ensures Sound(env, s)
  {
  }

  /* ---------- Nobody is ever stuck ---------- */

  /** A flight within its deadline can take its next step, and cache what it read if that may be cached. */
  lemma FlightsNeverStuck<V>(env: Env, s: State<V>, f: nat) returns (l: Label<V>)
    requires ValidConfig(env.config) && WellFormed(s) && f < |s.flights|
    requires var x := s.flights[f];
      && (!x.NoFlight? ==> s.now <= x.at + env.config.deadline)
      && (x.Read? ==> s.now <= x.readAt + env.maxLoad)
    ensures Enabled(env, s, l)
    ensures match s.flights[f]
            case NoFlight => l == StartFlight(f)
            case Started(_) => l == ReadRow(f)
            case Read(_, ver, _) =>
              if s.history[ver].value.Some? then l == WriteCache(f, env.config.ttl, true)
              else if env.config.ttlMissing.Some? then l == WriteCache(f, env.config.ttlMissing.value, true)
              else l == SkipCache(f)
            case Loaded(_, _, _) => l == Return(f)
  {
    match s.flights[f]
    case NoFlight => l := StartFlight(f);
    case Started(_) => l := ReadRow(f);
    case Read(_, ver, _) =>
      if s.history[ver].value.Some? {
        l := WriteCache(f, env.config.ttl, true);
      } else if env.config.ttlMissing.Some? {
        l := WriteCache(f, env.config.ttlMissing.value, true);
      } else {
        l := SkipCache(f);
      }
    case Loaded(_, _, _) => l := Return(f);
  }

  /** A load that returns or fails makes room for the next, and leaves the entry as it is. */
  lemma FlightsEnd<V>(env: Env, s: State<V>, l: Label<V>)
    requires WellFormed(s) && Enabled(env, s, l) && (l.Return? || l.Fail?)
    ensures Apply(env, s, l) == s.(flights := s.flights[l.f := NoFlight])
  {
  }

  /** A writer can delete at once after its commit, and again when half a second has passed. */
  lemma WritersNeverStuck<V>(env: Env, s: State<V>, w: nat)
    requires WellFormed(s) && w < |s.writers|
    ensures s.writers[w].Committed? ==>
      && Enabled(env, s, FirstDelete(w, true))
      && Apply(env, s, FirstDelete(w, true)).writers[w] == Scheduled(s.writers[w].ver, s.now + 500_000_000)
    ensures s.writers[w].Scheduled? && s.writers[w].fireAt <= s.now ==> Enabled(env, s, SecondDelete(w, true))
  {
  }

  /* ---------- Staleness, whatever fails ---------- */

  /** The value was the committed one at some instant after `since`. */
  ghost predicate CommittedAfter<V>(s: State<V>, value: Option<V>, since: int) {
    exists ver: nat, at: int ::
      since < at <= s.now && CurrentAt(s.history, ver, at) && s.history[ver].value == value
  }

  /**
   A cache hit is never staler than one lifetime plus one load, even if every
   delete fails and whatever the loads do, so long as they honour their deadline.
   */
  lemma HitIsFresh<V>(env: Env, s: State<V>, ls: seq<Label<V>>)
    requires Initial(s) && Legal(env, s, ls) && Visible(Exec(env, s, ls))
    ensures var t := Exec(env, s, ls);
      CommittedAfter(t, t.slot.value, t.now - MaxTtl(env.config, t.slot.value) - env.config.deadline)
  {
    InitialIsSound(env, s);
    SoundRun(env, s, ls);
    var t := Exec(env, s, ls);
    assert CurrentAt(t.history, t.slot.ver, t.slot.readAt);
  }

  /** What a load returns, to the request that started it and to all that joined it, is at most one deadline old. */
  lemma LoadIsFresh<V>(env: Env, s: State<V>, ls: seq<Label<V>>, f: nat)
    requires Initial(s) && Legal(env, s, ls) && Enabled(env, Exec(env, s, ls), Return(f))
    ensures var t := Exec(env, s, ls);
      CommittedAfter(t, t.history[t.flights[f].ver].value, t.now - env.config.deadline - 1)
  {
    InitialIsSound(env, s);
    SoundRun(env, s, ls);
    var t := Exec(env, s, ls);
    assert SoundFlight(t, t.flights[f]);
    assert CurrentAt(t.history, t.flights[f].ver, t.flights[f].readAt);
  }

  /** In clock time: 66 minutes for a link and 60 seconds for a 404, each plus a two-second load. */
  lemma LinkStaleness<V>(env: Env, s: State<V>, ls: seq<Label<V>>)
    requires env.config == LINKS && Initial(s) && Legal(env, s, ls) && Visible(Exec(env, s, ls))
    ensures var t := Exec(env, s, ls);
      CommittedAfter(t, t.slot.value, t.now - 2 * SECOND - if t.slot.value.Some? then 66 * MINUTE else 60 * SECOND)
  {
    HitIsFresh(env, s, ls);
    var t := Exec(env, s, ls);
    var since := t.now - MaxTtl(env.config, t.slot.value) - env.config.deadline;
    var ver: nat, at: int :|
      since < at <= t.now && CurrentAt(t.history, ver, at) && t.history[ver].value == t.slot.value;
  }

  /** In clock time: 10 minutes plus a two-second load for a snapshot, and no negative entries. */
  lemma SnapshotStaleness<V>(env: Env, s: State<V>, ls: seq<Label<V>>)
    requires env.config == SNAPSHOTS && Initial(s) && Legal(env, s, ls) && Visible(Exec(env, s, ls))
    ensures var t := Exec(env, s, ls);
      t.slot.value.Some? && CommittedAfter(t, t.slot.value, t.now - 2 * SECOND - 10 * MINUTE)
  {
    HitIsFresh(env, s, ls);
    InitialIsSound(env, s);
    FoundRun(env, s, ls);
  }

  /** Without a lifetime for it, "not found" is never cached. */
  lemma {:induction false} FoundRun<V>(env: Env, s: State<V>, ls: seq<Label<V>>)
    requires env.config.ttlMissing.None? && WellFormed(s) && Legal(env, s, ls)
    requires s.slot.Entry? ==> s.slot.value.Some?
    ensures Exec(env, s, ls).slot.Entry? ==> Exec(env, s, ls).slot.value.Some?
    decreases |ls|
  {
    if ls != [] {
      FoundRun(env, Apply(env, s, ls[0]), ls[1..]);
    }
  }

  /* ---------- Coherence of the delayed double delete ---------- */

  /** Loads take less than the delay of the second delete, and the second delete succeeds. */
  predicate Prompt(env: Env) {
    env.secondDeleteSucceeds && env.maxLoad < SECOND_DELETE
  }

  /** No writer that committed after an entry was read has finished its deletes. */
  ghost predicate Guarded<V>(s: State<V>) {
    s.slot.Entry? ==>
      forall w :: 0 <= w < |s.writers| && s.slot.ver < s.writers[w].ver ==> !s.writers[w].Finished?
  }

  /** Every version but the first was committed by a creation or by one of the writers. */
  ghost predicate Authored<V>(s: State<V>) {
    forall v :: 0 < v < |s.history| && s.history[v].author.Updater? ==>
      exists w :: 0 <= w < |s.writers| && s.writers[w].ver == v
  }

  lemma GuardedStep<V>(env: Env, s: State<V>, l: Label<V>)
    requires Prompt(env) && Sound(env, s) && Guarded(s) && Enabled(env, s, l)
    ensures Guarded(Apply(env, s, l))
  {
    var t := Apply(env, s, l);
    if l.WriteCache? && l.applied {
      var x := s.flights[l.f];
      assert SoundFlight(s, x);
      forall w | 0 <= w < |t.writers| && x.ver < t.writers[w].ver ensures !t.writers[w].Finished? {
        assert SoundWriter(s, s.writers[w]);
        assert s.history[x.ver + 1].at <= s.history[s.writers[w].ver].at;
      }
    }
  }

  lemma AuthoredStep<V>(env: Env, s: State<V>, l: Label<V>)
    requires WellFormed(s) && Authored(s) && Enabled(env, s, l)
    ensures Authored(Apply(env, s, l))
  {
    var t := Apply(env, s, l);
    forall v | 0 < v < |t.history| && t.history[v].author.Updater?
      ensures exists w :: 0 <= w < |t.writers| && t.writers[w].ver == v
    {
      if v < |s.history| {
        var w :| 0 <= w < |s.writers| && s.writers[w].ver == v;
        assert t.writers[w].ver == v;
      } else {
        assert t.writers[|s.writers|].ver == v;
      }
    }
  }

  lemma {:induction false} CoherentRun<V>(env: Env, s: State<V>, ls: seq<Label<V>>)
    requires WellFormed(s) && Legal(env, s, ls)
    requires Prompt(env) && Sound(env, s) && Guarded(s) && Authored(s)
    ensures Sound(env, Exec(env, s, ls)) && Guarded(Exec(env, s, ls)) && Authored(Exec(env, s, ls))
    decreases |ls|
  {
    hide Sound;
    hide Guarded;
    hide Authored;
    hide Apply;
    if ls != [] {
      SoundStep(env, s, ls[0]);
      GuardedStep(env, s, ls[0]);
      AuthoredStep(env, s, ls[0]);
      CoherentRun(env, Apply(env, s, ls[0]), ls[1..]);
    }
  }

  /** Every delete has run. */
  ghost predicate Settled<V>(s: State<V>) {
    forall w :: 0 <= w < |s.writers| ==> s.writers[w].Finished?
  }

  /**
   The cache agrees with the repository: the entry is the latest version, or it is
   a "not found" from before the creation of a document that has not changed since.
   */
  ghost predicate Agrees<V>(s: State<V>)
    requires WellFormed(s)
  {
    s.slot.Entry? ==>
      || s.slot.ver == Last(s)
      || (s.slot.value.None? && |s.history| == 2 && s.history[1].author.Creator?)
  }

  /**
   In every interleaving of readers, loads and writers: an entry older than the
   latest SetStatus or Delete means that a writer that committed after the entry
   was read still has a delete to run. So when all have run, the cache agrees.
   */
  lemma DoubleDeleteIsCoherent<V>(env: Env, s: State<V>, ls: seq<Label<V>>)
    requires Prompt(env) && Initial(s) && Legal(env, s, ls)
    ensures var t := Exec(env, s, ls);
      && (!Agrees(t) ==>
            exists w :: 0 <= w < |t.writers| && t.slot.ver < t.writers[w].ver && !t.writers[w].Finished?)
      && (Settled(t) ==> Agrees(t))
  {
    InitialIsSound(env, s);
    CoherentRun(env, s, ls);
    var t := Exec(env, s, ls);
    if !Agrees(t) {
      var v := Last(t);
      if t.history[v].author.Updater? {
        var w :| 0 <= w < |t.writers| && t.writers[w].ver == v;
      }
    }
  }

  /** What is cached is what is stored now, or a "not found" from before the creation. */
  ghost predicate AgreesByValue<V>(s: State<V>)
    requires WellFormed(s)
  {
    s.slot.Entry? ==>
      || s.slot.value == s.history[Last(s)].value
      || (s.slot.value.None? && |s.history| == 2 && s.history[1].author.Creator?)
  }

  /** Whether loads of up to `load` always leave a cache that agrees once every delete has run. */
  ghost predicate CoherentUpTo<V(!new)>(c: Config, load: int) {
    forall s: State<V>, ls: seq<Label<V>> ::
      Initial(s) && Legal(Env(c, load, true), s, ls) && Settled(Exec(Env(c, load, true), s, ls)) ==>
        AgreesByValue(Exec(Env(c, load, true), s, ls))
  }

  ghost predicate Takes<V>(env: Env, s: State<V>, l: Label<V>, t: State<V>) {
    WellFormed(s) && Enabled(env, s, l) && Apply(env, s, l) == t
  }

  lemma Then<V>(env: Env, s: State<V>, l: Label<V>, t: State<V>, ls: seq<Label<V>>)
    returns (run: seq<Label<V>>)
    requires Takes(env, s, l, t) && WellFormed(t) && Legal(env, t, ls)
    ensures WellFormed(s) && Legal(env, s, run) && Exec(env, s, run) == Exec(env, t, ls)
  {
    LegalCons(env, s, l, ls);
    run := [l] + ls;
  }

  /** A run in which a load of `load` outlives both deletes. */
  ghost function Stage<V>(n: nat, a: V, b: V, load: int, ttl: int): State<V> {
    var h1 := [Version(0, Option<V>.None, Nobody)];
    var h2 := h1 + [Version(0, Some(a), Creator)];
    var h3 := h2 + [Version(0, Some(b), Updater)];
    match n
    case 0 => State(0, h1, Empty, [NoFlight], [])
    case 1 => State(0, h2, Empty, [NoFlight], [])
    case 2 => State(0, h2, Empty, [Started(0)], [])
    case 3 => State(0, h2, Empty, [Read(0, 1, 0)], [])
    case 4 => State(0, h3, Empty, [Read(0, 1, 0)], [Committed(2)])
    case 5 => State(0, h3, Empty, [Read(0, 1, 0)], [Scheduled(2, SECOND_DELETE)])
    case 6 => State(SECOND_DELETE, h3, Empty, [Read(0, 1, 0)], [Scheduled(2, SECOND_DELETE)])
    case 7 => State(SECOND_DELETE, h3, Empty, [Read(0, 1, 0)], [Finished(2, SECOND_DELETE)])
    case 8 => State(load, h3, Empty, [Read(0, 1, 0)], [Finished(2, SECOND_DELETE)])
    case _ => State(load, h3, Entry(Some(a), load + ttl, 1, 0), [Loaded(0, 1, 0)], [Finished(2, SECOND_DELETE)])
  }

  ghost function StageLabel<V>(n: nat, a: V, b: V, load: int, ttl: int): Label<V> {
    match n
    case 0 => Create(a)
    case 1 => StartFlight(0)
    case 2 => ReadRow(0)
    case 3 => Commit(Some(b))
    case 4 => FirstDelete(0, true)
    case 5 => Tick(SECOND_DELETE)
    case 6 => SecondDelete(0, true)
    case 7 => if load >= SECOND_DELETE then Tick(load - SECOND_DELETE) else Hit
    case _ => WriteCache(0, ttl, true)
  }

  lemma StageStep<V>(env: Env, n: nat, a: V, b: V)
    requires ValidConfig(env.config) && SECOND_DELETE <= env.maxLoad <= env.config.deadline && n < 9
    ensures var load, ttl := env.maxLoad, env.config.ttl;
      Takes(env, Stage(n, a, b, load, ttl), StageLabel(n, a, b, load, ttl), Stage(n + 1, a, b, load, ttl))
  {
    var s := Stage(n, a, b, env.maxLoad, env.config.ttl);
    assert WellFormed(s);
    assert Enabled(env, s, StageLabel(n, a, b, env.maxLoad, env.config.ttl));
  }

  lemma {:induction false} StageRun<V>(env: Env, n: nat, a: V, b: V) returns (run: seq<Label<V>>)
    requires ValidConfig(env.config) && SECOND_DELETE <= env.maxLoad <= env.config.deadline && n <= 9
    ensures var s := Stage(n, a, b, env.maxLoad, env.config.ttl);
      WellFormed(s) && Legal(env, s, run) && Exec(env, s, run) == Stage(9, a, b, env.maxLoad, env.config.ttl)
    decreases 9 - n
  {
    hide Stage;
    hide StageLabel;
    hide Apply;
    if n == 9 {
      StageStep(env, 8, a, b);
      run := [];
    } else {
      var load, ttl := env.maxLoad, env.config.ttl;
      StageStep(env, n, a, b);
      run := StageRun(env, n + 1, a, b);
      run := Then(env, Stage(n, a, b, load, ttl), StageLabel(n, a, b, load, ttl), Stage(n + 1, a, b, load, ttl), run);
    }
  }

  /** A load of half a second or more, though within its deadline, can leave `a` cached after both deletes. */
  lemma SlowLoadIsStale<V>(env: Env, a: V, b: V) returns (s: State<V>, ls: seq<Label<V>>)
    requires ValidConfig(env.config) && SECOND_DELETE <= env.maxLoad <= env.config.deadline
    ensures Initial(s) && Legal(env, s, ls)
    ensures var t := Exec(env, s, ls);
      && Settled(t) && Visible(t) && !Agrees(t) && |t.history| > 2
      && t.slot.value == Some(a) && t.history[Last(t)].value == Some(b)
  {
    s := Stage(0, a, b, env.maxLoad, env.config.ttl);
    ls := StageRun(env, 0, a, b);
  }

  /** Half a second is exactly how slow a load may not be, for any two documents that differ. */
  lemma DoubleDeleteThreshold<V(!new)>(c: Config, load: int, a: V, b: V)
    requires ValidConfig(c) && load <= c.deadline && a != b
    ensures CoherentUpTo<V>(c, load) <==> load < 500_000_000
  {
    var env := Env(c, load, true);
    if load < SECOND_DELETE {
      forall s: State<V>, ls: seq<Label<V>> | Initial(s) && Legal(env, s, ls) && Settled(Exec(env, s, ls))
        ensures AgreesByValue(Exec(env, s, ls))
      {
        DoubleDeleteIsCoherent(env, s, ls);
      }
    } else {
      var s, ls := SlowLoadIsStale(env, a, b);
    }
  }

  /** A load finds nothing, its answer is cached, and then the document is created. */
  ghost function Missed<V>(n: nat, a: V): State<V> {
    var h := [Version(0, Option<V>.None, Nobody)];
    var e := Entry(Option<V>.None, NOT_FOUND_TTL, 0, 0);
    match n
    case 0 => State(0, h, Empty, [NoFlight], [])
    case 1 => State(0, h, Empty, [Started(0)], [])
    case 2 => State(0, h, Empty, [Read(0, 0, 0)], [])
    case 3 => State(0, h, e, [Loaded(0, 0, 0)], [])
    case _ => State(0, h + [Version(0, Some(a), Creator)], e, [Loaded(0, 0, 0)], [])
  }

  ghost function MissedLabel<V>(n: nat, a: V): Label<V> {
    match n
    case 0 => StartFlight(0)
    case 1 => ReadRow(0)
    case 2 => WriteCache(0, NOT_FOUND_TTL, true)
    case _ => Create(a)
  }

  lemma MissedStep<V>(env: Env, n: nat, a: V)
    requires env.config == LINKS && 0 <= env.maxLoad && n < 4
    ensures Takes(env, Missed(n, a), MissedLabel(n, a), Missed(n + 1, a))
  {
    var s := Missed(n, a);
    assert WellFormed(s);
    assert Enabled(env, s, MissedLabel(n, a));
  }

  /** "Not found" is cached, and hides a link that is created within its minute: why agreement has an exception. */
  lemma CachedNotFoundHidesCreation<V>(env: Env, a: V) returns (s: State<V>, ls: seq<Label<V>>)
    requires env.config == LINKS && 0 <= env.maxLoad
    ensures Initial(s) && Legal(env, s, ls)
    ensures var t := Exec(env, s, ls);
      Settled(t) && Visible(t) && t.slot.value == None && t.history[Last(t)].value == Some(a)
  {
    MissedStep(env, 0, a);
    MissedStep(env, 1, a);
    MissedStep(env, 2, a);
    MissedStep(env, 3, a);
    hide Apply;
    hide Enabled;
    ls := Then(env, Missed(3, a), MissedLabel(3, a), Missed(4, a), []);
    ls := Then(env, Missed(2, a), MissedLabel(2, a), Missed(3, a), ls);
    ls := Then(env, Missed(1, a), MissedLabel(1, a), Missed(2, a), ls);
    s := Missed(0, a);
    ls := Then(env, s, MissedLabel(0, a), Missed(1, a), ls);
  }
}
