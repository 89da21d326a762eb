/** The link cache and the cached content reader over one Redis, with commands that may fail. */
module RedisStore {
  import opened Wrappers
  import opened Domain
  import opened Limits
  import opened Coherence
  import Keys

  /* ---------- Redis ---------- */

  /** The stored values, and the second deletes still to come. */
  class Redis {
    var kv: Store
    var pending: seq<Deletion>

    constructor ()
      ensures kv == map[] && pending == []
    {
      kv, pending := map[], [];
    }

    /** None when the command fails. */
    method Read(key: string, now: int, fail: bool) returns (r: Option<Option<Value>>)
      ensures r == if fail then None else Some(Fetch(kv, key, now))
    {
      if fail {
        return None;
      }
      return Some(Fetch(kv, key, now));
    }

    method Write(key: string, e: Entry, fail: bool)
      modifies this
      ensures pending == old(pending)
      ensures kv == if fail then old(kv) else old(kv)[key := e]
    {
      if !fail {
        kv := kv[key := e];
      }
    }

    method Del(key: string, fail: bool)
      modifies this
      ensures pending == old(pending) && kv == if fail then old(kv) else old(kv) - {key}
    {
      if !fail {
        kv := kv - {key};
      }
    }

    method Schedule(d: Deletion)
      modifies this
      ensures kv == old(kv) && pending == old(pending) + [d]
    {
      pending := pending + [d];
    }

    /** Runs the second deletes that are due; one that fails is only logged. */
    method RunDue(now: int, fails: set<Deletion>)
      modifies this
      ensures kv == old(kv) - DueKeys(old(pending), now, fails)
      ensures forall d :: d in pending <==> d in old(pending) && now < d.at
    {
      var todo := pending;
      pending := [];
      for i := 0 to |todo|
        invariant kv == old(kv) - DueKeys(todo[..i], now, fails)
        invariant forall d :: d in pending <==> d in todo[..i] && now < d.at
      {
        assert todo[..i + 1] == todo[..i] + [todo[i]];
        if todo[i].at <= now {
          kv := if todo[i] in fails then kv else kv - {todo[i].key};
        } else {
          pending := pending + [todo[i]];
        }
      }
    }
  }

  /* ---------- The link cache ---------- */

  datatype CacheReply = Hit(link: Link) | NegativeHit | Miss | Broken

  class LinkCache {
    const rdb: Redis

    constructor (rdb: Redis)
      ensures this.rdb == rdb
    {
      this.rdb := rdb;
    }

    /** A value that is not a link record reads as a miss. */
    method Get(code: string, now: int, fail: bool) returns (r: CacheReply)
      ensures r == if fail then Broken else
                     match Fetch(rdb.kv, Keys.LinkKey(code), now)
                     case Some(NotFoundMark) => NegativeHit
                     case Some(LinkValue(rec)) => Hit(ToDomain(rec))
                     case _ => Miss
    {
      var raw := rdb.Read(Keys.LinkKey(code), now, fail);
      match raw
      case None => return Broken;
      case Some(None) => return Miss;
      case Some(Some(value)) =>
        if value.NotFoundMark? {
          return NegativeHit;
        }
        if value.LinkValue? {
          return Hit(ToDomain(value.record));
        }
        return Miss;
    }

    method Set(l: Link, now: int, jitter: int, fail: bool)
      modifies rdb
      ensures rdb.pending == old(rdb.pending)
      ensures rdb.kv == if fail then old(rdb.kv)
                        else old(rdb.kv)[Keys.LinkKey(l.code) := Entry(LinkValue(ToRecord(l)), now + LINK_TTL + jitter)]
    {
      rdb.Write(Keys.LinkKey(l.code), Entry(LinkValue(ToRecord(l)), now + LINK_TTL + jitter), fail);
    }

    method SetNotFound(code: string, now: int, fail: bool)
      modifies rdb
      ensures rdb.pending == old(rdb.pending)
      ensures rdb.kv == if fail then old(rdb.kv)
                        else old(rdb.kv)[Keys.LinkKey(code) := Entry(NotFoundMark, now + NOT_FOUND_TTL)]
    {
      rdb.Write(Keys.LinkKey(code), Entry(NotFoundMark, now + NOT_FOUND_TTL), fail);
    }

    /** Deletes now and, even if that fails, once more half a second later. Reports the first delete only. */
    method Invalidate(code: string, now: int, fail: bool) returns (ok: bool)
      modifies rdb
      ensures ok == !fail
      ensures rdb.kv == if fail then old(rdb.kv) else old(rdb.kv) - {Keys.LinkKey(code)}
      ensures rdb.pending == old(rdb.pending) + [Deletion(Keys.LinkKey(code), now + SECOND_DELETE)]
    {
      rdb.Del(Keys.LinkKey(code), fail);
      rdb.Schedule(Deletion(Keys.LinkKey(code), now + SECOND_DELETE));
      return !fail;
    }
  }

  /* ---------- The submissions and their snapshot cache ---------- */

  predicate Deletes(subs: Submissions, user: int, id: int) {
    id in subs && subs[id].owner == user && !subs[id].deleted
  }

  class Content {
    const rdb: Redis
    var rows: Submissions
    /** The snapshots whose delete failed and that have not expired. */
    ghost var doubted: set<(string, int)>

    constructor (rdb: Redis, rows: Submissions)
      ensures this.rdb == rdb && this.rows == rows && doubted == {}
    {
      this.rdb, this.rows, doubted := rdb, rows, {};
    }

    /** Cache-aside with one delete on invalidation; misses of the source are not cached. */
    method Snapshot(rt: string, id: int, now: int, f: Faults) returns (r: Result<Snapshot, Error>)
      requires SnapshotsCoherent(rdb.kv, rows, now, doubted)
      modifies rdb
      ensures SnapshotsCoherent(rdb.kv, rows, now, doubted) && rdb.pending == old(rdb.pending)
      ensures SameLinks(old(rdb.kv), rdb.kv)
      ensures r == Failure(Unavailable) ==> f.load
      ensures r.Failure? ==> r.error == Unavailable || r.error == SubmissionNotFound
      ensures r != Failure(Unavailable) && (rt, id) !in doubted ==>
                r == match SnapshotOf(rows, rt, id) case Some(s) => Success(s) case None => Failure(SubmissionNotFound)
      ensures r.Success? && !f.load && !f.write ==>
                Fetch(rdb.kv, "submission:snapshot:" + rt + ":" + Keys.Dec(id), now) == Some(SnapshotValue(r.value))
      ensures r.Failure? || f.write || (Fetch(old(rdb.kv), Keys.SnapshotKey(rt, id), now).Some? && !f.read) ==>
                rdb.kv == old(rdb.kv)
    {
      var key := Keys.SnapshotKey(rt, id);
      var cached := rdb.Read(key, now, f.read);
      assert key in rdb.kv ==> SnapshotEntrySound(rdb.kv[key], rows, rt, id, now, (rt, id) in doubted);
      if cached.Some? && cached.value.Some? {
        return Success(cached.value.value.snapshot);
      }
      if f.load {
        return Failure(Unavailable);
      }
      var loaded := SnapshotOf(rows, rt, id);
      if loaded.None? {
        return Failure(SubmissionNotFound);
      }
      ghost var before := rdb.kv;
      rdb.Write(key, Entry(SnapshotValue(loaded.value), now + SNAPSHOT_TTL), f.write);
      if !f.write {
        PutSnapshot(before, rows, now, doubted, rt, id, loaded.value);
      }
      return Success(loaded.value);
    }

    method SoftDelete(user: int, id: int) returns (r: Result<string, Error>)
      modifies this`rows
      ensures Deletes(old(rows), user, id) ==>
                r == Success(old(rows)[id].resourceType) && rows == old(rows)[id := old(rows)[id].(deleted := true)]
      ensures !Deletes(old(rows), user, id) ==> r == Failure(SubmissionNotFound) && rows == old(rows)
    {
      if id !in rows || rows[id].owner != user || rows[id].deleted {
        return Failure(SubmissionNotFound);
      }
      rows := rows[id := rows[id].(deleted := true)];
      return Success(rows[id].resourceType);
    }

    method Invalidate(rt: string, id: int, fail: bool) returns (ok: bool)
      modifies rdb
      ensures ok == !fail && rdb.pending == old(rdb.pending)
      ensures rdb.kv == if fail then old(rdb.kv) else old(rdb.kv) - {Keys.SnapshotKey(rt, id)}
    {
      rdb.Del(Keys.SnapshotKey(rt, id), fail);
      return !fail;
    }
  }
}
