/**
 The snapshot cache is invalidated by one delete. This module says exactly when one
 delete is enough: when no load has read the old document and can still cache it.
 */
module SingleDelete {
  import opened Wrappers
  import opened Limits
  import opened CacheAside

  /* ---------- A delete that works ---------- */

  /** A delete that takes effect. */
  predicate Deletes<V>(l: Label<V>) {
    (l.FirstDelete? || l.SecondDelete?) && l.applied
  }

  predicate Writes<V>(l: Label<V>) {
    l.WriteCache? && l.applied
  }

  ghost predicate NoWrite<V>(ls: seq<Label<V>>) {
    forall i :: 0 <= i < |ls| ==> !Writes(ls[i])
  }

  lemma {:induction false} EmptyStays<V>(env: Env, s: State<V>, ls: seq<Label<V>>)
    requires WellFormed(s) && s.slot.Empty? && Legal(env, s, ls) && NoWrite(ls)
    ensures Exec(env, s, ls).slot.Empty?
    decreases |ls|
  {
    if ls != [] {
      assert !Writes(ls[0]);
      assert forall i :: 0 <= i < |ls[1..]| ==> ls[1..][i] == ls[i + 1];
      EmptyStays(env, Apply(env, s, ls[0]), ls[1..]);
    }
  }

  /** Whatever was cached: from a delete that works until a load writes the cache, nothing is visible. */
  lemma NothingVisibleUntilWritten<V>(env: Env, s: State<V>, l: Label<V>, ls: seq<Label<V>>)
    requires WellFormed(s) && Enabled(env, s, l) && Deletes(l)
    requires Legal(env, Apply(env, s, l), ls) && NoWrite(ls)
    ensures !Visible(Exec(env, Apply(env, s, l), ls))
  {
    EmptyStays(env, Apply(env, s, l), ls);
  }

  /** A delete that fails leaves the entry as it is. */
  lemma FailedDeleteLeavesEntry<V>(env: Env, s: State<V>, l: Label<V>)
    requires WellFormed(s) && Enabled(env, s, l) && (l.FirstDelete? || l.SecondDelete?) && !l.applied
    ensures Apply(env, s, l).slot == s.slot
  {
  }

  /* ---------- When one delete is enough ---------- */

  /** The load has read another value than the latest, and is still in time to write it to the cache. */
  ghost predicate MayWriteOld<V>(env: Env, s: State<V>, f: nat)
    requires WellFormed(s)
  {
    && f < |s.flights| && s.flights[f].Read?
    && s.history[s.flights[f].ver].value != s.history[Last(s)].value
    && Cacheable(env.config, s.history[s.flights[f].ver].value)
    && s.now <= s.flights[f].at + env.config.deadline && s.now <= s.flights[f].readAt + env.maxLoad
  }

  ghost predicate NobodyMayWriteOld<V>(env: Env, s: State<V>)
    requires WellFormed(s)
  {
    forall f :: 0 <= f < |s.flights| ==> !MayWriteOld(env, s, f)
  }

  /** What is cached, expired or not, is the latest value. */
  ghost predicate Fresh<V>(s: State<V>)
    requires WellFormed(s)
  {
    s.slot.Entry? ==> s.slot.value == s.history[Last(s)].value
  }

  /** The document does not change any more. */
  ghost predicate NoChange<V>(ls: seq<Label<V>>) {
    forall i :: 0 <= i < |ls| ==> !ls[i].Create? && !ls[i].Commit?
  }

  /** However the run goes on, only the value committed last is visible. */
  ghost predicate StaysFresh<V(!new)>(env: Env, s: State<V>)
    requires WellFormed(s)
  {
    forall ls: seq<Label<V>> :: Legal(env, s, ls) && NoChange(ls) && Visible(Exec(env, s, ls)) ==>
      Exec(env, s, ls).slot.value == s.history[Last(s)].value
  }

  lemma FreshStep<V>(env: Env, s: State<V>, l: Label<V>)
    requires WellFormed(s) && Enabled(env, s, l) && !l.Create? && !l.Commit?
    requires Fresh(s) && NobodyMayWriteOld(env, s)
    ensures Fresh(Apply(env, s, l)) && NobodyMayWriteOld(env, Apply(env, s, l))
  {
    var t := Apply(env, s, l);
    assert l.WriteCache? ==> !MayWriteOld(env, s, l.f);
    forall f | 0 <= f < |t.flights| ensures !MayWriteOld(env, t, f) {
      assert !MayWriteOld(env, s, f);
    }
  }

  lemma {:induction false} FreshRun<V>(env: Env, s: State<V>, ls: seq<Label<V>>)
    requires WellFormed(s) && Legal(env, s, ls) && NoChange(ls)
    requires Fresh(s) && NobodyMayWriteOld(env, s)
    ensures Fresh(Exec(env, s, ls))
    decreases |ls|
  {
    hide Apply;
    if ls != [] {
      assert !ls[0].Create? && !ls[0].Commit?;
      FreshStep(env, s, ls[0]);
      assert forall i :: 0 <= i < |ls[1..]| ==> ls[1..][i] == ls[i + 1];
      FreshRun(env, Apply(env, s, ls[0]), ls[1..]);
    }
  }

  lemma {:induction false} HistoryKept<V>(env: Env, s: State<V>, ls: seq<Label<V>>)
    requires WellFormed(s) && Legal(env, s, ls) && NoChange(ls)
    ensures Exec(env, s, ls).history == s.history
    decreases |ls|
  {
    if ls != [] {
      assert !ls[0].Create? && !ls[0].Commit?;
      assert forall i :: 0 <= i < |ls[1..]| ==> ls[1..][i] == ls[i + 1];
      HistoryKept(env, Apply(env, s, ls[0]), ls[1..]);
    }
  }

  /** Such a load makes the old document visible with its next step. */
  lemma OldIsWritten<V>(env: Env, s: State<V>, f: nat) returns (ls: seq<Label<V>>)
    requires ValidConfig(env.config) && WellFormed(s) && MayWriteOld(env, s, f)
    ensures NoChange(ls) && Legal(env, s, ls)
    ensures var t := Exec(env, s, ls);
      Visible(t) && t.slot.value == s.history[s.flights[f].ver].value != s.history[Last(s)].value
  {
    var value := s.history[s.flights[f].ver].value;
    var ttl := if value.Some? then env.config.ttl else env.config.ttlMissing.value;
    var l: Label<V> := WriteCache(f, ttl, true);
    assert Enabled(env, s, l);
    LegalCons(env, s, l, []);
    ls := [l] + [];
    assert ls == [l];
  }

  /**
   A writer's first delete works. Whatever was cached before it, only the value committed
   last is visible from then on if and only if no load may write an older one.
   */
  lemma OneDeleteIsEnoughIff<V(!new)>(env: Env, s: State<V>, w: nat)
    requires ValidConfig(env.config) && Sound(env, s) && w < |s.writers| && s.writers[w].Committed?
    ensures Enabled(env, s, FirstDelete(w, true))
    ensures StaysFresh(env, Apply(env, s, FirstDelete(w, true))) <==> NobodyMayWriteOld(env, s)
  {
    var t := Apply(env, s, FirstDelete(w, true));
    NothingVisibleUntilWritten(env, s, FirstDelete(w, true), []);
    assert forall f: nat :: MayWriteOld(env, t, f) <==> MayWriteOld(env, s, f);
    if NobodyMayWriteOld(env, s) {
      forall ls: seq<Label<V>> | Legal(env, t, ls) && NoChange(ls) && Visible(Exec(env, t, ls))
        ensures Exec(env, t, ls).slot.value == t.history[Last(t)].value
      {
        FreshRun(env, t, ls);
        HistoryKept(env, t, ls);
      }
    } else {
      var f :| 0 <= f < |s.flights| && MayWriteOld(env, s, f);
      assert MayWriteOld(env, t, f);
      var ls := OldIsWritten(env, t, f);
    }
  }

  /** A submission is loaded, deleted and dropped from the cache, and then the load caches it. */
  ghost function AfterTheDelete<V>(a: V): State<V> {
    State(0, [Version(0, Some(a), Nobody), Version(0, Option<V>.None, Updater)], Empty, [Read(0, 0, 0)],
          [Scheduled(1, SECOND_DELETE)])
  }

  ghost function DeleteLabels<V>(): seq<Label<V>> {
    [StartFlight(0), ReadRow(0), Commit(Option<V>.None), FirstDelete(0, true)]
  }

  lemma DeleteRun<V>(env: Env, s: State<V>, a: V)
    requires ValidConfig(env.config)
    requires s == State(0, [Version(0, Some(a), Nobody)], Empty, [NoFlight], [])
    ensures Initial(s) && Legal(env, s, DeleteLabels()) && Exec(env, s, DeleteLabels()) == AfterTheDelete(a)
  {
    var s1 := Apply(env, s, StartFlight(0));
    var s2 := Apply(env, s1, ReadRow(0));
    var s3 := Apply(env, s2, Commit(Option<V>.None));
    var s4 := Apply(env, s3, FirstDelete(0, true));
    assert s4 == AfterTheDelete(a);
    hide Apply;
    LegalCons(env, s3, FirstDelete(0, true), []);
    LegalCons(env, s2, Commit(Option<V>.None), [FirstDelete(0, true)] + []);
    LegalCons(env, s1, ReadRow(0), [Commit(Option<V>.None)] + ([FirstDelete(0, true)] + []));
    LegalCons(env, s, StartFlight(0), [ReadRow(0)] + ([Commit(Option<V>.None)] + ([FirstDelete(0, true)] + [])));
    assert DeleteLabels<V>() ==
           [StartFlight(0)] + ([ReadRow(0)] + ([Commit(Option<V>.None)] + ([FirstDelete(0, true)] + [])));
  }

  /**
   So the links of a deleted submission need not be gone at once: however fast loads
   are, one that was under way can bring the snapshot back until it expires.
   */
  lemma DeletedSnapshotReturns<V(!new)>(env: Env, a: V) returns (s: State<V>, ls: seq<Label<V>>)
    requires ValidConfig(env.config) && 0 <= env.maxLoad
    ensures Initial(s) && Legal(env, s, DeleteLabels()) && Exec(env, s, DeleteLabels()).slot.Empty?
    ensures Legal(env, Exec(env, s, DeleteLabels()), ls) && NoChange(ls)
    ensures var t := Exec(env, Exec(env, s, DeleteLabels()), ls);
      Visible(t) && t.slot.value == Some(a) && t.history[Last(t)].value.None?
  {
    s := State(0, [Version(0, Some(a), Nobody)], Empty, [NoFlight], []);
    DeleteRun(env, s, a);
    ls := OldIsWritten(env, AfterTheDelete(a), 0);
    HistoryKept(env, AfterTheDelete(a), ls);
  }
}
