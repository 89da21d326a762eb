/**
 The sharing use cases over their real adapters, one call at a time: a repository,
 a Redis that holds both cached links and cached snapshots, the submissions, and
 the stream of tracked views. Every command of the cache may fail at every call.
 Resolve is proved to answer as if there were no cache.
 */
module ShareService {
  import opened Wrappers
  import opened Domain
  import opened Repository
  import opened Limits
  import opened Coherence
  import opened RedisStore
  import Keys
  import Codes
  import MemStore

  /* ---------- The use cases ---------- */

  /** A draw of a code that some link has. */
  predicate Taken(draw: Option<string>, links: map<string, Link>) {
    draw.Some? && draw.value in links
  }

  predicate DrawnFirst(draws: seq<Option<string>>, links: map<string, Link>, code: string, k: nat) {
    && k < |draws| && draws[k] == Some(code) && code !in links
    && forall j :: 0 <= j < k ==> Taken(draws[j], links)
  }

  /** `code` is the first of the draws that no link has. */
  predicate FirstFree(draws: seq<Option<string>>, links: map<string, Link>, code: string) {
    exists k :: 0 <= k < |draws| && DrawnFirst(draws, links, code, k)
  }

  /** The generator fails at draw `k`, after codes that were taken. */
  predicate GeneratorFails(draws: seq<Option<string>>, links: map<string, Link>, k: nat) {
    k < |draws| && draws[k].None? && forall j :: 0 <= j < k ==> Taken(draws[j], links)
  }

  class Service {
    const rdb: Redis
    const links: MemStore.LinkRepository
    const cache: LinkCache
    const content: Content
    var now: int
    /** Every call of Track so far. */
    var tracked: seq<(int, string)>

    /** The codes whose first delete failed and that still have an entry. */
    ghost var doubted: set<string>
    /** Those of them whose second delete failed too. */
    ghost var unrepaired: set<string>

    /** What is cached is true, up to doubts and "not found" marks older than the link; no owner was counted. */
    ghost predicate Valid()
      reads this, rdb, links, content
    {
      && cache.rdb == rdb && content.rdb == rdb && links.Valid()
      && LinksCoherent(rdb.kv, links.links, now, doubted)
      && SnapshotsCoherent(rdb.kv, content.rows, now, content.doubted)
      && Repairs(rdb.pending, now, doubted, unrepaired)
      && OwnersUncounted(links.links, tracked) && SharedByAuthors(links.links, content.rows)
    }

    /** No failed delete concerns the code or the submission it shares. */
    ghost predicate Trusted(code: string)
      reads this, links, content
    {
      && code !in doubted
      && (code in links.links ==>
            (links.links[code].resourceType, links.links[code].resourceId) !in content.doubted)
    }

    constructor (rows: Submissions, now: int)
      ensures Valid() && this.now == now && tracked == []
      ensures doubted == {} && unrepaired == {} && content.doubted == {}
      ensures links.Contents() == Table(map[], 0) && content.rows == rows && rdb.kv == map[]
      ensures fresh(rdb) && fresh(links) && fresh(content)
    {
      var redis := new Redis();
      rdb := redis;
      links := new MemStore.LinkRepository();
      cache := new LinkCache(redis);
      content := new Content(redis, rows);
      this.now, tracked, doubted, unrepaired := now, [], {}, {};
    }

    /** What a flight does: asks the repository and caches its answer. */
    method Load(code: string, f: Faults, jitter: int) returns (r: Result<Link, Error>)
      requires Valid() && 0 <= jitter < LINK_JITTER
      modifies rdb
      ensures Valid() && rdb.pending == old(rdb.pending)
      ensures rdb.kv == if f.load || f.write then old(rdb.kv) else Loaded(old(rdb.kv), links.links, now, code, jitter)
      ensures !f.load && !f.write ==>
                var key := "share:link:" + code;
                && key in rdb.kv
                && (if code in links.links then
                      && rdb.kv[key].value == LinkValue(ToRecord(links.links[code]))
                      && now + 60 * MINUTE <= rdb.kv[key].expires < now + 66 * MINUTE
                    else rdb.kv[key] == Entry(NotFoundMark, now + 60 * SECOND))
      ensures r == if f.load then Failure(Unavailable)
                   else if code in links.links then Success(links.links[code]) else Failure(LinkNotFound)
    {
      if f.load {
        return Failure(Unavailable);
      }
      ghost var kv := rdb.kv;
      r := links.FindByCode(code);
      if r.Failure? {
        cache.SetNotFound(code, now, f.write);
      } else {
        assert r.value.code == code;
        cache.Set(r.value, now, jitter, f.write);
      }
      PutLink(kv, links.links, now, doubted, code, LoadedEntry(links.links, now, code, jitter));
      Unmixed(kv, rdb.kv);
    }

    /** Cache first; on a miss or a broken cache the repository, whose answer is cached. */
    method GetLink(code: string, f: Faults, jitter: int) returns (r: Result<Link, Error>)
      requires Valid() && 0 <= jitter < LINK_JITTER
      modifies rdb
      ensures Valid() && rdb.pending == old(rdb.pending)
      ensures rdb.kv == Filled(old(rdb.kv), links.links, now, code, f, jitter)
      ensures !f.load && !f.write ==> Fetch(rdb.kv, "share:link:" + code, now).Some?
      ensures !f.read && StaleNotFound(old(rdb.kv), links.links, now, code) ==> r == Failure(LinkNotFound)
      ensures f.read || !StaleNotFound(old(rdb.kv), links.links, now, code) ==>
                match r
                case Success(l) =>
                  && code in links.links && SameLink(ToRecord(l), links.links[code])
                  && (code !in doubted ==> ToRecord(l) == ToRecord(links.links[code]))
                case Failure(e) => if e == Unavailable then f.load else e == LinkNotFound && code !in links.links
    {
      assert Keys.LinkKey(code) in rdb.kv ==>
          LinkEntrySound(rdb.kv[Keys.LinkKey(code)], code, links.links, now, code in doubted);
      hide LinksCoherent;
      hide SnapshotsCoherent;
      hide Repairs;
      hide OwnersUncounted;
      hide Consistent;
      var reply := cache.Get(code, now, f.read);
      if reply.Hit? {
        return Success(reply.link);
      }
      if reply.NegativeHit? {
        return Failure(LinkNotFound);
      }
      r := Load(code, f, jitter);
    }

    /** The second half of Resolve: access, snapshot, view. The link may come from the cache. */
    method Show(code: string, l: Link, v: Viewer, g: Faults) returns (r: Result<SharedView, Error>)
      requires Valid() && code in links.links && SameLink(ToRecord(l), links.links[code])
      modifies this`tracked, rdb
      ensures Valid() && rdb.pending == old(rdb.pending) && SameLinks(old(rdb.kv), rdb.kv) && old(tracked) <= tracked
      ensures r == Failure(Unavailable) ==> g.load && tracked == old(tracked)
      ensures r != Failure(Unavailable) && (l.resourceType, l.resourceId) !in content.doubted ==>
                Answer(r, tracked[|old(tracked)|..]) == Open(l, content.rows, now, v)
    {
      hide LinksCoherent;
      hide Repairs;
      hide Consistent;
      if !l.Accessible(now) {
        return Failure(LinkGone);
      }
      ghost var kv := rdb.kv;
      var snap := content.Snapshot(l.resourceType, l.resourceId, now, g);
      Unmixed(kv, rdb.kv);
      hide SnapshotsCoherent;
      if snap == Failure(SubmissionNotFound) {
        return Failure(LinkGone);
      }
      if snap.Failure? {
        return Failure(snap.error);
      }
      if l.CountsViewFrom(v) {
        TrackedByAnother(links.links, code, l, v);
        OneMoreTracked(links.links, tracked, (l.id, Keys.ViewerKey(v)));
        hide OwnersUncounted;
        tracked := tracked + [(l.id, Keys.ViewerKey(v))];
      }
      return Success(SharedView(l.code, l.resourceType, snap.value, l.createdAt));
    }

    /**
     Whatever reads and writes of the cache fail, the answer and the tracked view are those
     of a Resolve without cache, but for a code created while its "not found" is cached;
     only a delete that failed can suspend this, for as long as it is not repaired.
     */
    method Resolve(code: string, v: Viewer, f: Faults, g: Faults, jitter: int) returns (r: Result<SharedView, Error>)
      requires Valid() && 0 <= jitter < LINK_JITTER
      modifies this`tracked, rdb
      ensures Valid() && rdb.pending == old(rdb.pending) && old(tracked) <= tracked
      ensures Codes.IsCode(code) ==> SameLinks(Filled(old(rdb.kv), links.links, now, code, f, jitter), rdb.kv)
      ensures r == Failure(Unavailable) ==> (f.load || g.load) && tracked == old(tracked)
      ensures r != Failure(Unavailable) && Trusted(code) ==>
                Answer(r, tracked[|old(tracked)|..]) ==
                if !f.read && StaleNotFound(old(rdb.kv), links.links, now, code) then Answer(Failure(LinkNotFound), [])
                else CacheFree(links.links, content.rows, now, code, v)
    {
      var valid := Codes.ValidCode(code);
      if !valid {
        return Failure(LinkNotFound);
      }
      hide *;
      var found := GetLink(code, f, jitter);
      if found.Failure? {
        return Failure(found.error);
      }
      var l := found.value;
      if Trusted(code) {
        OpenOfRecord(l, links.links[code], content.rows, now, v);
      }
      r := Show(code, l, v, g);
    }

    /** Idempotent: an existing link is returned as it is. Otherwise the first free code drawn is used. */
    method Create(owner: int, rt: string, id: int, expiresAt: Option<int>, draws: seq<Option<string>>)
      returns (r: Result<Link, Error>, created: bool)
      requires Valid() && |draws| == 3
      modifies links
      ensures Valid()
      ensures !created ==> links.Contents() == old(links.Contents())
      ensures r == Failure(InvalidResourceType) <==>
                rt != "writing_submission" && rt != "speaking_submission" && rt != "test_result"
      ensures r != Failure(InvalidResourceType) ==>
                (r == Failure(Forbidden) <==>
                   !(&& id in content.rows && content.rows[id].owner == owner && content.rows[id].resourceType == rt
                     && !content.rows[id].deleted))
      ensures created ==> r.Success? && FirstFree(draws, old(links.links), r.value.code)
      ensures created ==>
                && r.value ==
                   Link(old(links.nextId) + 1, r.value.code, owner, rt, id, "active", expiresAt, None, 0, now)
                && links.Contents() == Table(old(links.links)[r.value.code := r.value], old(links.nextId) + 1)
      ensures r == Failure(CodeExhausted) ==> forall k :: 0 <= k < 3 ==> Taken(draws[k], old(links.links))
      ensures r == Failure(Unavailable) ==> exists k :: 0 <= k < 3 && GeneratorFails(draws, old(links.links), k)
      ensures r.Failure? ==>
                r.error in {InvalidResourceType, Forbidden, CodeExhausted, Unavailable}
                && (r.error in {CodeExhausted, Unavailable} ==> !Shared(old(links.Contents()), rt, id))
      ensures r.Success? && !created ==>
                && r.value.code in links.links && r.value == links.links[r.value.code] && r.value.deletedAt == None
                && r.value.resourceType == rt && r.value.resourceId == id && r.value.ownerId == owner
      ensures Shared(old(links.Contents()), rt, id) ==> !created
    {
      created := false;
      if !ValidResourceType(rt) {
        return Failure(InvalidResourceType), false;
      }
      if !IsAuthor(content.rows, rt, id, owner) {
        return Failure(Forbidden), false;
      }
      r := links.FindByResource(rt, id);
      hide Shared;
      hide LinksCoherent;
      hide SnapshotsCoherent;
      hide Repairs;
      hide OwnersUncounted;
      hide Consistent;
      if r.Success? {
        return;
      }
      hide LiveOn;
      hide IsAuthor;
      for attempt := 0 to MAX_CODE_RETRY
        invariant Valid() && links.Contents() == old(links.Contents())
        invariant forall k :: 0 <= k < attempt ==> Taken(draws[k], links.links)
      {
        if draws[attempt].None? {
          assert GeneratorFails(draws, links.links, attempt);
          return Failure(Unavailable), false;
        }
        var link := NewLink(draws[attempt].value, owner, rt, id, expiresAt);
        r := InsertLink(link);
        if r.Success? {
          assert DrawnFirst(draws, old(links.links), link.code, attempt);
          return r, true;
        }
      }
      return Failure(CodeExhausted), false;
    }

    /** One insert of Create. One call at a time, nobody else shares the submission in between. */
    method InsertLink(l: Link) returns (r: Result<Link, Error>)
      requires Valid() && !Shared(links.Contents(), l.resourceType, l.resourceId)
      requires IsAuthor(content.rows, l.resourceType, l.resourceId, l.ownerId)
      modifies links
      ensures Valid()
      ensures l.code in old(links.links) ==> r == Failure(DuplicateCode) && links.Contents() == old(links.Contents())
      ensures l.code !in old(links.links) ==>
                && r == Success(l.(id := old(links.nextId) + 1, createdAt := now))
                && links.Contents() == Table(old(links.links)[l.code := r.value], old(links.nextId) + 1)
    {
      ghost var t := links.Contents();
      OwnersStayUncounted(t, Insert(l, links.nextId + 1, now), tracked);
      AuthorsStay(t, Insert(l, links.nextId + 1, now), content.rows);
      hide Shared;
      hide OwnersUncounted;
      hide SharedByAuthors;
      hide LinksCoherent;
      hide SnapshotsCoherent;
      hide Repairs;
      hide Consistent;
      r := links.Insert(l, now);
      if r.Success? {
        CreatedLink(rdb.kv, t.links, links.links, now, doubted, r.value);
      }
    }

    /** Commits, then invalidates. A failing delete is logged, and leaves the code in doubt for half a second. */
    method SetStatus(owner: int, code: string, st: string, down: bool) returns (r: Result<Link, Error>)
      requires Valid()
      modifies this`doubted, this`unrepaired, links, rdb
      ensures Valid()
      ensures st != "active" && st != "disabled" ==>
                && r == Failure(InvalidStatus) && links.Contents() == old(links.Contents())
                && rdb.kv == old(rdb.kv) && doubted == old(doubted)
      ensures st == "active" || st == "disabled" ==>
                var op := Op.SetStatus(code, owner, st);
                && links.Contents() == Next(old(links.Contents()), op)
                && if Succeeds(old(links.Contents()), op) then
                     && r == Success(links.links[code]) && doubted == Doubt(old(doubted), code, down)
                     && rdb.kv == if down then old(rdb.kv) else old(rdb.kv) - {Keys.LinkKey(code)}
                   else r == Failure(LinkNotFound) && rdb.kv == old(rdb.kv) && doubted == old(doubted)
    {
      if !ValidStatus(st) {
        return Failure(InvalidStatus);
      }
      ghost var before := links.links;
      OwnersStayUncounted(links.Contents(), Op.SetStatus(code, owner, st), tracked);
      AuthorsStay(links.Contents(), Op.SetStatus(code, owner, st), content.rows);
      r := links.UpdateStatus(code, owner, st);
      if r.Failure? {
        return;
      }
      ghost var kv := rdb.kv;
      InvalidatedLink(kv, before, links.links[code], now, doubted, code, down);
      RepairAdded(rdb.pending, now, doubted, unrepaired, code, down);
      var ok := cache.Invalidate(code, now, down);
      Unmixed(kv, rdb.kv);
      doubted, unrepaired := Doubt(doubted, code, !ok), unrepaired - {code};
    }

    /** After it, whatever operations follow, a request without cache never opens the code again. */
    method Delete(owner: int, code: string, down: bool) returns (r: Result<(), Error>)
      requires Valid()
      modifies this`doubted, this`unrepaired, links, rdb
      ensures Valid()
      ensures var op := Op.Delete(code, owner, now);
                && links.Contents() == Next(old(links.Contents()), op)
                && if Succeeds(old(links.Contents()), op) then
                     && r.Success? && doubted == Doubt(old(doubted), code, down)
                     && rdb.kv == if down then old(rdb.kv) else old(rdb.kv) - {Keys.LinkKey(code)}
                   else r == Failure(LinkNotFound) && rdb.kv == old(rdb.kv) && doubted == old(doubted)
      ensures r.Success? ==>
                forall ops, subs, at, v ::
                  CacheFree(Run(links.Contents(), ops).links, subs, at, code, v).result.Failure?
    {
      ghost var before := links.links;
      OwnersStayUncounted(links.Contents(), Op.Delete(code, owner, now), tracked);
      AuthorsStay(links.Contents(), Op.Delete(code, owner, now), content.rows);
      r := links.SoftDelete(code, owner, now);
      if r.Failure? {
        return;
      }
      ghost var kv := rdb.kv;
      InvalidatedLink(kv, before, links.links[code], now, doubted, code, down);
      RepairAdded(rdb.pending, now, doubted, unrepaired, code, down);
      var ok := cache.Invalidate(code, now, down);
      Unmixed(kv, rdb.kv);
      doubted, unrepaired := Doubt(doubted, code, !ok), unrepaired - {code};
      DeletedStaysClosed(links.Contents(), code);
    }

    /** Commits, then drops the snapshot: every link to the submission is gone at once, unless the delete fails. */
    method DeleteSubmission(user: int, id: int, down: bool) returns (r: Result<(), Error>)
      requires Valid()
      modifies content, rdb
      ensures Valid()
      ensures !(id in old(content.rows) && old(content.rows)[id].owner == user && !old(content.rows)[id].deleted) ==>
                && r == Failure(SubmissionNotFound) && content.rows == old(content.rows)
                && rdb.kv == old(rdb.kv) && content.doubted == old(content.doubted)
      ensures id in old(content.rows) && old(content.rows)[id].owner == user && !old(content.rows)[id].deleted ==>
                && (if down then r == Failure(Unavailable) else r.Success?)
                && content.rows == old(content.rows)[id := old(content.rows)[id].(deleted := true)]
                && content.doubted == Doubt(old(content.doubted), (old(content.rows)[id].resourceType, id), down)
                && forall l: Link, at, v ::
                     l.resourceId == id ==> Open(l, content.rows, at, v) == Answer(Failure(LinkGone), [])
    {
      ghost var before := content.rows;
      var deleted := content.SoftDelete(user, id);
      if deleted.Failure? {
        return Failure(deleted.error);
      }
      ghost var kv := rdb.kv;
      InvalidatedSnapshot(kv, before, content.rows, now, content.doubted, deleted.value, id, down);
      var ok := content.Invalidate(deleted.value, id, down);
      Unmixed(kv, rdb.kv);
      content.doubted := Doubt(content.doubted, (deleted.value, id), !ok);
      if !ok {
        return Failure(Unavailable);
      }
      return Success(());
    }

    method AddViews(deltas: map<int, int>)
      requires Valid()
      modifies links
      ensures Valid() && links.Contents() == Next(old(links.Contents()), Op.AddViews(deltas))
    {
      ViewsKeepCoherence(rdb.kv, links.Contents(), deltas, now, doubted);
      OwnersStayUncounted(links.Contents(), Op.AddViews(deltas), tracked);
      AuthorsStay(links.Contents(), Op.AddViews(deltas), content.rows);
      var added := links.AddViews(deltas, false);
    }

    /**
     The clock moves on and second deletes run. Doubt about a link ends within half a second
     unless its second delete fails too, and with the lifetime of the entry in any case.
     */
    method Wait(d: nat, fails: set<Deletion>)
      requires Valid()
      modifies this`now, this`doubted, this`unrepaired, content`doubted, rdb
      ensures Valid() && now == old(now) + d
      ensures rdb.kv == old(rdb.kv) - DueKeys(old(rdb.pending), now, fails)
      ensures doubted <= old(doubted) && content.doubted <= old(content.doubted)
      ensures SECOND_DELETE <= d ==> doubted <= unrepaired
      ensures fails == {} ==> unrepaired <= old(unrepaired)
      ensures LINK_TTL + LINK_JITTER <= d ==> doubted == {}
      ensures SNAPSHOT_TTL <= d ==> content.doubted == {}
    {
      ghost var kv, pending, was := rdb.kv, rdb.pending, now;
      now := now + d;
      rdb.RunDue(now, fails);
      LinksAge(kv, rdb.kv, links.links, was, now, doubted);
      SnapshotsAge(kv, rdb.kv, content.rows, was, now, content.doubted);
      RepairsRun(kv, pending, rdb.pending, was, now, doubted, unrepaired, fails);
      doubted := StillDoubted(doubted, rdb.kv, now);
      unrepaired := StillUnrepaired(doubted, unrepaired, FailedKeys(pending, now, fails));
      content.doubted := StillVisible(content.doubted, rdb.kv, now);
    }
  }

  lemma DeletedStaysClosed(t: Table, code: string)
    requires code in t.links && !t.links[code].Live()
    ensures forall ops, subs, at, v :: CacheFree(Run(t, ops).links, subs, at, code, v).result.Failure?
  {
    forall ops, subs, at, v ensures CacheFree(Run(t, ops).links, subs, at, code, v).result.Failure? {
      AccessOverRuns(t, ops, code, at);
    }
  }

  /** The exception is real: a visit before the link exists hides it from the visits that follow. */
  method VisitedTooEarly(code: string, v: Viewer, rows: Submissions, owner: int, rt: string, id: int)
    returns (s: Service, first: Result<SharedView, Error>, r: Result<Link, Error>, second: Result<SharedView, Error>)
    requires Codes.IsCode(code) && ValidResourceType(rt) && IsAuthor(rows, rt, id, owner)
    ensures r.Success? && r.value.code == code && code in s.links.links
    ensures SnapshotOf(rows, rt, id).Some? ==> CacheFree(s.links.links, s.content.rows, s.now, code, v).result.Success?
    ensures first == second == Failure(LinkNotFound)
  {
    var ok := Faults(false, false, false);
    s := new Service(rows, 0);
    first := s.Resolve(code, v, ok, ok, 0);
    assert Keys.LinkKey(code) in s.rdb.kv && s.rdb.kv[Keys.LinkKey(code)] == Entry(NotFoundMark, NOT_FOUND_TTL);
    var created;
    var draws := [Some(code), Some(code), Some(code)];
    assert !Taken(draws[0], s.links.links) && forall k :: 0 <= k < 3 ==> draws[k] == Some(code);
    r, created := s.Create(owner, rt, id, None, draws);
    assert created && r.value.code == code;
    second := s.Resolve(code, v, ok, ok, 0);
  }
}
