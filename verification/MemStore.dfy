/** The in-memory adapters, each verified against the abstraction the use cases rely on. */
module MemStore {
  import opened Wrappers
  import opened Sets
  import opened Domain
  import opened Repository
  import Keys

  /** LinkRepository and ViewStore. The mutex makes every method one atomic step. */
  class LinkRepository {
    var links: map<string, Link>
    var nextId: int

    function Contents(): Table
      reads this
    {
      Table(links, nextId)
    }

    ghost predicate Valid()
      reads this
    {
      Consistent(Contents()) && 0 <= nextId
    }

    constructor ()
      ensures Valid() && Contents() == Table(map[], 0)
    {
      links, nextId := map[], 0;
    }

    method Insert(l: Link, now: int) returns (r: Result<Link, Error>)
      requires Valid()
      modifies this
      ensures Valid()
      ensures var t, op := old(Contents()), Op.Insert(l, old(nextId) + 1, now);
        && Contents() == Next(t, op) && r.Success? == Succeeds(t, op)
        && (r.Success? ==> r.value == l.(id := op.id, createdAt := now))
        && (r.Failure? ==> r.error == if l.code in t.links then DuplicateCode else AlreadyShared)
    {
      ghost var t := Contents();
      StepConsistent(t, Op.Insert(l, nextId + 1, now));
      if l.code in links {
        return Failure(DuplicateCode);
      }
      var existing := FindByResource(l.resourceType, l.resourceId);
      if existing.Success? {
        return Failure(AlreadyShared);
      }
      nextId := nextId + 1;
      var stored := l.(id := nextId, createdAt := now);
      links := links[l.code := stored];
      return Success(stored);
    }

    method FindByCode(code: string) returns (r: Result<Link, Error>)
      ensures r == if code in links then Success(links[code]) else Failure(LinkNotFound)
    {
      if code in links {
        return Success(links[code]);
      }
      return Failure(LinkNotFound);
    }

    /** Ranges over the whole map; finds the undeleted link of the resource if there is one. */
    method FindByResource(resourceType: string, resourceId: int) returns (r: Result<Link, Error>)
      requires Valid()
      ensures r.Success? ==>
                LiveOn(Contents(), r.value.code, resourceType, resourceId) && r.value == links[r.value.code]
      ensures r.Failure? ==> r.error == LinkNotFound && !Shared(Contents(), resourceType, resourceId)
    {
      var todo := links.Keys;
      while todo != {}
        invariant todo <= links.Keys
        invariant forall code :: LiveOn(Contents(), code, resourceType, resourceId) ==> code in todo
        decreases todo
      {
        var code := PickOne(todo);
        var l := links[code];
        if l.resourceType == resourceType && l.resourceId == resourceId && l.deletedAt.None? {
          return Success(l);
        }
        todo := todo - {code};
      }
      return Failure(LinkNotFound);
    }

    method UpdateStatus(code: string, ownerId: int, st: string) returns (r: Result<Link, Error>)
      requires Valid()
      modifies this
      ensures Valid()
      ensures var t, op := old(Contents()), SetStatus(code, ownerId, st);
        && Contents() == Next(t, op) && r.Success? == Succeeds(t, op)
        && (r.Success? ==> r.value == links[code]) && (r.Failure? ==> r.error == LinkNotFound)
    {
      StepConsistent(Contents(), SetStatus(code, ownerId, st));
      if code !in links || links[code].ownerId != ownerId || links[code].deletedAt.Some? {
        return Failure(LinkNotFound);
      }
      links := links[code := links[code].(status := st)];
      return Success(links[code]);
    }

    method SoftDelete(code: string, ownerId: int, now: int) returns (r: Result<(), Error>)
      requires Valid()
      modifies this
      ensures Valid()
      ensures var t, op := old(Contents()), Delete(code, ownerId, now);
        && Contents() == Next(t, op) && r.Success? == Succeeds(t, op)
        && (r.Failure? ==> r.error == LinkNotFound)
    {
      StepConsistent(Contents(), Delete(code, ownerId, now));
      if code !in links || links[code].ownerId != ownerId || links[code].deletedAt.Some? {
        return Failure(LinkNotFound);
      }
      links := links[code := links[code].(deletedAt := Some(now))];
      return Success(());
    }

    method AddViews(deltas: map<int, int>, fail: bool) returns (r: Result<(), Error>)
      requires Valid()
      modifies this
      ensures Valid()
      ensures Contents() == if fail then old(Contents()) else Next(old(Contents()), Op.AddViews(deltas))
      ensures r.Failure? == fail
    {
      if fail {
        return Failure(Unavailable);
      }
      StepConsistent(Contents(), Op.AddViews(deltas));
      links := AddEach(links, deltas);
      return Success(());
    }
  }

  /** The loop of AddViews: adds each link's delta, one link at a time. */
  method AddEach(before: map<string, Link>, deltas: map<int, int>) returns (links: map<string, Link>)
    ensures links == map c | c in before :: WithViews(before[c], deltas)
  {
    links := before;
    var todo := links.Keys;
    while todo != {}
      invariant links.Keys == before.Keys && todo <= links.Keys
      invariant forall c :: c in todo ==> links[c] == before[c]
      invariant forall c :: c in links.Keys - todo ==> links[c] == WithViews(before[c], deltas)
      decreases todo
    {
      var code := PickOne(todo);
      var l := links[code];
      links := links[code := l.(viewCount := l.viewCount + Delta(deltas, l.id))];
      todo := todo - {code};
    }
  }

  /** What the link cache holds for one code. */
  datatype Slot = Miss | NotFound | Found(link: Link)

  /** LinkCache: two maps that behave like one slot per code, last write wins. */
  class LinkCache {
    var items: map<string, Link>
    var negative: set<string>
    var fail: bool

    function SlotOf(code: string): Slot
      reads this
    {
      if code in negative then NotFound else if code in items then Found(items[code]) else Miss
    }

    constructor ()
      ensures !fail && forall code :: SlotOf(code) == Miss
    {
      items, negative, fail := map[], {}, false;
    }

    /** A hit, a negative hit, or no answer; None is an unavailable cache. */
    method Get(code: string) returns (r: Option<Slot>)
      ensures r == if fail then None else Some(SlotOf(code))
    {
      if fail {
        return None;
      }
      if code in negative {
        return Some(NotFound);
      }
      if code in items {
        return Some(Found(items[code]));
      }
      return Some(Miss);
    }

    method Set(l: Link) returns (ok: bool)
      modifies this
      ensures fail == old(fail) && ok == !fail
      ensures forall c :: SlotOf(c) == if ok && c == l.code then Found(l) else old(SlotOf(c))
    {
      if fail {
        return false;
      }
      items := items[l.code := l];
      negative := negative - {l.code};
      return true;
    }

    method SetNotFound(code: string) returns (ok: bool)
      modifies this
      ensures fail == old(fail) && ok == !fail
      ensures forall c :: SlotOf(c) == if ok && c == code then NotFound else old(SlotOf(c))
    {
      if fail {
        return false;
      }
      negative := negative + {code};
      return true;
    }

    /** Works even while the cache is marked as failing. */
    method Invalidate(code: string)
      modifies this
      ensures fail == old(fail)
      ensures forall c :: SlotOf(c) == if c == code then Miss else old(SlotOf(c))
    {
      items := items - {code};
      negative := negative - {code};
    }
  }

  function CountOf(pending: map<int, nat>, id: int): nat {
    if id in pending then pending[id] else 0
  }

  function VisitorsOf(unique: map<int, set<string>>, id: int): set<string> {
    if id in unique then unique[id] else {}
  }

  /** The rendered key of a pair stands for the pair. */
  ghost predicate KeysMatch(seen: set<string>, unique: map<int, set<string>>) {
    forall id, visitor :: Keys.PairKey(id, visitor) in seen <==> visitor in VisitorsOf(unique, id)
  }

  /** Every pair was counted exactly once. */
  ghost predicate CountsMatch(pending: map<int, nat>, unique: map<int, set<string>>) {
    forall id :: CountOf(pending, id) == |VisitorsOf(unique, id)|
  }

  lemma TrackedKeys(seen: set<string>, unique: map<int, set<string>>, link: int, visitor: string)
    requires KeysMatch(seen, unique)
    ensures var u := unique[link := VisitorsOf(unique, link) + {visitor}];
      KeysMatch(seen + {Keys.PairKey(link, visitor)}, u)
    ensures Keys.PairKey(link, visitor) in seen <==> visitor in VisitorsOf(unique, link)
    ensures Keys.PairKey(link, visitor) in seen ==>
      KeysMatch(seen, unique[link := VisitorsOf(unique, link) + {visitor}])
  {
    forall id, v
      ensures Keys.PairKey(id, v) == Keys.PairKey(link, visitor) <==> id == link && v == visitor
      ensures Keys.PairKey(id, v) in seen <==> v in VisitorsOf(unique, id)
    {
      Keys.PairKeyInjective(id, v, link, visitor);
    }
    hide Keys.PairKey;
  }

  lemma TrackedCounts(pending: map<int, nat>, unique: map<int, set<string>>, link: int, visitor: string)
    requires CountsMatch(pending, unique)
    ensures var u := unique[link := VisitorsOf(unique, link) + {visitor}];
      if visitor in VisitorsOf(unique, link) then CountsMatch(pending, u)
      else CountsMatch(pending[link := CountOf(pending, link) + 1], u)
  {
    var before := VisitorsOf(unique, link);
    assert CountOf(pending, link) == |before|;
    assert visitor in before ==> before + {visitor} == before;
    assert visitor !in before ==> |before + {visitor}| == |before| + 1;
    var u := unique[link := before + {visitor}];
    var p := if visitor in before then pending else pending[link := CountOf(pending, link) + 1];
    forall id ensures CountOf(p, id) == |VisitorsOf(u, id)| {
      assert CountOf(pending, id) == |VisitorsOf(unique, id)|;
      assert id != link ==> VisitorsOf(u, id) == VisitorsOf(unique, id) && CountOf(p, id) == CountOf(pending, id);
    }
  }

  /** What one call of Track does to its three collections. */
  lemma TrackedOnce(seen: set<string>, pending: map<int, nat>, unique: map<int, set<string>>,
                    link: int, visitor: string)
    requires KeysMatch(seen, unique) && CountsMatch(pending, unique)
    ensures var u, key := unique[link := VisitorsOf(unique, link) + {visitor}], Keys.PairKey(link, visitor);
      if key in seen then KeysMatch(seen, u) && CountsMatch(pending, u)
      else KeysMatch(seen + {key}, u) && CountsMatch(pending[link := CountOf(pending, link) + 1], u)
  {
    TrackedKeys(seen, unique, link, visitor);
    TrackedCounts(pending, unique, link, visitor);
    hide KeysMatch;
    hide CountsMatch;
    hide Keys.PairKey;
  }

  /** ViewTracker: a view counts once per (link, visitor). */
  class ViewTracker {
    var tracked: nat
    var seen: set<string>
    var pending: map<int, nat>
    var unique: map<int, set<string>>

    function UniqueOf(id: int): set<string>
      reads this
    {
      VisitorsOf(unique, id)
    }

    ghost predicate Valid()
      reads this
    {
      KeysMatch(seen, unique) && CountsMatch(pending, unique)
    }

    constructor ()
      ensures Valid() && tracked == 0 && forall id :: UniqueOf(id) == {}
    {
      tracked, seen, pending, unique := 0, {}, map[], map[];
    }

    method Track(link: int, visitor: string)
      requires Valid()
      modifies this
      ensures Valid() && tracked == old(tracked) + 1
      ensures UniqueOf(link) == old(UniqueOf(link)) + {visitor}
      ensures forall id :: id != link ==> UniqueOf(id) == old(UniqueOf(id))
    {
      hide KeysMatch;
      hide CountsMatch;
      hide CountOf;
      hide Keys.PairKey;
      TrackedOnce(seen, pending, unique, link, visitor);
      tracked := tracked + 1;
      var key := Keys.PairKey(link, visitor);
      unique := unique[link := VisitorsOf(unique, link) + {visitor}];
      if key !in seen {
        seen := seen + {key};
        pending := pending[link := CountOf(pending, link) + 1];
      }
    }

    method Pending(link: int) returns (count: nat, visitors: nat)
      requires Valid()
      ensures count == visitors == |UniqueOf(link)|
    {
      count := CountOf(pending, link);
      visitors := |if link in unique then unique[link] else {}|;
    }
  }
}
