/**
 The table of share links as both repositories maintain it: codes are unique for
 ever, at most one undeleted link per resource, guarded updates, batched views.
 */
module Repository {
  import opened Wrappers
  import opened Domain

  /** `lastId` is at least every id handed out; a failed insert may burn ids. */
  datatype Table = Table(links: map<string, Link>, lastId: int)

  predicate SameResource(a: Link, resourceType: string, resourceId: int) {
    a.resourceType == resourceType && a.resourceId == resourceId
  }

  /** `code` is the undeleted link of the resource. */
  predicate LiveOn(t: Table, code: string, resourceType: string, resourceId: int) {
    code in t.links && t.links[code].Live() && SameResource(t.links[code], resourceType, resourceId)
  }

  predicate Shared(t: Table, resourceType: string, resourceId: int) {
    exists code :: code in t.links && LiveOn(t, code, resourceType, resourceId)
  }

  ghost predicate CodesAndIds(t: Table) {
    && (forall c :: c in t.links ==> t.links[c].code == c && 0 < t.links[c].id <= t.lastId)
    && (forall c, d :: c in t.links && d in t.links && t.links[c].id == t.links[d].id ==> c == d)
  }

  ghost predicate OneLivePerResource(t: Table) {
    forall c, d, rt, rid :: LiveOn(t, c, rt, rid) && LiveOn(t, d, rt, rid) ==> c == d
  }

  ghost predicate Consistent(t: Table) {
    CodesAndIds(t) && OneLivePerResource(t)
  }

  datatype Op =
    | Insert(link: Link, id: int, at: int)
    | SetStatus(code: string, owner: int, status: string)
    | Delete(code: string, owner: int, at: int)
    | AddViews(deltas: map<int, int>)

  /** The guard of UpdateStatus and SoftDelete. */
  predicate Owned(t: Table, code: string, owner: int) {
    code in t.links && t.links[code].ownerId == owner && t.links[code].Live()
  }

  predicate Succeeds(t: Table, op: Op) {
    match op
    case Insert(l, id, _) => l.code !in t.links && !Shared(t, l.resourceType, l.resourceId) && t.lastId < id
    case SetStatus(code, owner, _) => Owned(t, code, owner)
    case Delete(code, owner, _) => Owned(t, code, owner)
    case AddViews(_) => true
  }

  function Delta(deltas: map<int, int>, id: int): int {
    if id in deltas then deltas[id] else 0
  }

  function WithViews(l: Link, deltas: map<int, int>): Link {
    l.(viewCount := l.viewCount + Delta(deltas, l.id))
  }

  /** A failed operation changes nothing. */
  function Next(t: Table, op: Op): Table {
    if !Succeeds(t, op) then t
    else
      match op
      case Insert(l, id, at) => Table(t.links[l.code := l.(id := id, createdAt := at)], id)
      case SetStatus(code, _, st) => t.(links := t.links[code := t.links[code].(status := st)])
      case Delete(code, _, at) => t.(links := t.links[code := t.links[code].(deletedAt := Some(at))])
      case AddViews(deltas) => t.(links := map c | c in t.links :: WithViews(t.links[c], deltas))
  }

  function Run(t: Table, ops: seq<Op>): Table
    decreases |ops|
  {
    if ops == [] then t else Run(Next(t, ops[0]), ops[1..])
  }

  /** What never changes about a link; a deleted link does not change at all but for its views. */
  predicate Ages(l: Link, m: Link) {
    && m.id == l.id && m.code == l.code && m.ownerId == l.ownerId
    && m.resourceType == l.resourceType && m.resourceId == l.resourceId
    && m.expiresAt == l.expiresAt && m.createdAt == l.createdAt
    && (!l.Live() ==> m.deletedAt == l.deletedAt && m.status == l.status)
  }

  /** Links stay, and new ones have larger ids. */
  ghost predicate Evolves(t: Table, u: Table) {
    && t.lastId <= u.lastId
    && (forall c :: c in t.links ==> c in u.links && Ages(t.links[c], u.links[c]))
    && (forall c :: c in u.links && c !in t.links ==> t.lastId < u.links[c].id)
  }

  /** What flush sends: no negative delta. */
  predicate Sane(op: Op) {
    op.AddViews? ==> forall id :: id in op.deltas ==> 0 <= op.deltas[id]
  }

  ghost predicate ViewsGrow(t: Table, u: Table) {
    forall c :: c in t.links ==> c in u.links && t.links[c].viewCount <= u.links[c].viewCount
  }

  /** Updating links in place, without bringing one back to life, keeps everything. */
  lemma UpdateConsistent(t: Table, u: Table)
    requires Consistent(t) && u.lastId == t.lastId && u.links.Keys == t.links.Keys
    requires forall c :: c in t.links ==> Ages(t.links[c], u.links[c])
    ensures Consistent(u) && Evolves(t, u)
  {
    assert forall c :: c in u.links ==> Ages(t.links[c], u.links[c]);
    forall c, rt, rid | LiveOn(u, c, rt, rid) ensures LiveOn(t, c, rt, rid) {}
  }

  lemma InsertConsistent(t: Table, l: Link, id: int, at: int)
    requires Consistent(t) && Succeeds(t, Insert(l, id, at)) && 0 < id
    ensures Consistent(Next(t, Insert(l, id, at))) && Evolves(t, Next(t, Insert(l, id, at)))
  {
    var u := Next(t, Insert(l, id, at));
    forall c, d, rt, rid | LiveOn(u, c, rt, rid) && LiveOn(u, d, rt, rid) ensures c == d {
      assert c in t.links ==> !LiveOn(t, c, l.resourceType, l.resourceId);
      assert d in t.links ==> !LiveOn(t, d, l.resourceType, l.resourceId);
      assert c != l.code ==> LiveOn(t, c, rt, rid);
      assert d != l.code ==> LiveOn(t, d, rt, rid);
    }
  }

  lemma StepConsistent(t: Table, op: Op)
    requires Consistent(t) && 0 <= t.lastId
    ensures Consistent(Next(t, op)) && Evolves(t, Next(t, op))
  {
    if Succeeds(t, op) {
      match op
      case Insert(l, id, at) => InsertConsistent(t, l, id, at);
      case _ => UpdateConsistent(t, Next(t, op));
    }
  }

  lemma StepGrows(t: Table, op: Op)
    requires Sane(op)
    ensures ViewsGrow(t, Next(t, op))
  {
  }

  lemma EvolvesTrans(t: Table, u: Table, v: Table)
    requires Evolves(t, u) && Evolves(u, v)
    ensures Evolves(t, v)
  {
    forall c | c in v.links && c !in t.links ensures t.lastId < v.links[c].id {
      assert c in u.links ==> Ages(u.links[c], v.links[c]);
    }
  }

  /**
   Over every run: codes and ids stay unique, no resource has two undeleted links,
   identities never change, ids grow, deletion is final, and view counts never fall
   unless somebody adds a negative delta.
   */
  lemma {:induction false} RunsEvolve(t: Table, ops: seq<Op>)
    requires Consistent(t) && 0 <= t.lastId
    ensures Consistent(Run(t, ops)) && Evolves(t, Run(t, ops))
    ensures (forall op :: op in ops ==> Sane(op)) ==> ViewsGrow(t, Run(t, ops))
    decreases |ops|
  {
    if ops != [] {
      assert ops[0] in ops && forall op :: op in ops[1..] ==> op in ops;
      StepConsistent(t, ops[0]);
      if Sane(ops[0]) {
        StepGrows(t, ops[0]);
      }
      RunsEvolve(Next(t, ops[0]), ops[1..]);
      EvolvesTrans(t, Next(t, ops[0]), Run(t, ops));
    }
  }

  /** A code that was ever used is never issued again, and nothing succeeds on a deleted link again. */
  lemma DeletionIsForever(t: Table, ops: seq<Op>, code: string, op: Op)
    requires Consistent(t) && 0 <= t.lastId
    requires code in t.links && !t.links[code].Live()
    requires match op
             case Insert(l, _, _) => l.code == code
             case SetStatus(c, _, _) => c == code
             case Delete(c, _, _) => c == code
             case AddViews(_) => false
    ensures !Succeeds(Run(t, ops), op)
    ensures code in Run(t, ops).links && forall now :: !Run(t, ops).links[code].Accessible(now)
  {
    RunsEvolve(t, ops);
  }

  /* ---------- When a link opens ---------- */

  /** The owner deletes the link in the run. */
  predicate DeletedIn(ops: seq<Op>, code: string, owner: int)
    decreases |ops|
  {
    ops != [] && ((ops[0].Delete? && ops[0].code == code && ops[0].owner == owner) || DeletedIn(ops[1..], code, owner))
  }

  /** The status the owner set last, or the one at the start. */
  function LastStatus(ops: seq<Op>, code: string, owner: int, status: string): string
    decreases |ops|
  {
    if ops == [] then status
    else
      LastStatus(ops[1..], code, owner,
                 if ops[0].SetStatus? && ops[0].code == code && ops[0].owner == owner then ops[0].status else status)
  }

  lemma AccessStep(t: Table, op: Op, code: string)
    requires code in t.links
    ensures code in Next(t, op).links
    ensures var l, m := t.links[code], Next(t, op).links[code];
      && m.ownerId == l.ownerId && m.expiresAt == l.expiresAt
      && (m.Live() <==> l.Live() && !(op.Delete? && op.code == code && op.owner == l.ownerId))
      && (l.Live() ==>
            m.status == if op.SetStatus? && op.code == code && op.owner == l.ownerId then op.status else l.status)
  {
  }

  /**
   After any run of operations by anybody, a link opens if and only if it was not
   deleted before, its owner did not delete it in the run, the status its owner set
   last is active, and it has not expired.
   */
  lemma {:induction false} AccessOverRuns(t: Table, ops: seq<Op>, code: string, now: int)
    requires code in t.links
    ensures code in Run(t, ops).links
    ensures var l := t.links[code];
      Run(t, ops).links[code].Accessible(now) <==>
        && l.Live() && !DeletedIn(ops, code, l.ownerId)
        && LastStatus(ops, code, l.ownerId, l.status) == STATUS_ACTIVE
        && (l.expiresAt == None || now <= l.expiresAt.value)
    decreases |ops|
  {
    if ops != [] {
      AccessStep(t, ops[0], code);
      AccessOverRuns(Next(t, ops[0]), ops[1..], code, now);
    }
  }

  /* ---------- How many views a link has ---------- */

  /** The views of link `id` that the run adds. */
  function ViewsAdded(ops: seq<Op>, id: int): int
    decreases |ops|
  {
    if ops == [] then 0
    else
      (if ops[0].AddViews? && id in ops[0].deltas then ops[0].deltas[id] else 0) + ViewsAdded(ops[1..], id)
  }

  lemma {:induction false} ViewsOverRuns(t: Table, ops: seq<Op>, code: string)
    requires code in t.links
    ensures code in Run(t, ops).links
    ensures Run(t, ops).links[code].viewCount == t.links[code].viewCount + ViewsAdded(ops, t.links[code].id)
    decreases |ops|
  {
    if ops != [] {
      var u := Next(t, ops[0]);
      assert code in u.links && u.links[code].id == t.links[code].id;
      ViewsOverRuns(u, ops[1..], code);
    }
  }

  /** From its creation on, a link opens until it expires, unless its owner disables or deletes it. */
  lemma CreatedLinkOpens(t: Table, l: Link, id: int, at: int, ops: seq<Op>, now: int)
    requires Succeeds(t, Insert(l, id, at))
    requires l == NewLink(l.code, l.ownerId, l.resourceType, l.resourceId, l.expiresAt)
    ensures var u := Run(Next(t, Insert(l, id, at)), ops);
      && l.code in u.links
      && (u.links[l.code].Accessible(now) <==>
            && !DeletedIn(ops, l.code, l.ownerId)
            && LastStatus(ops, l.code, l.ownerId, STATUS_ACTIVE) == STATUS_ACTIVE
            && (l.expiresAt == None || now <= l.expiresAt.value))
  {
    AccessOverRuns(Next(t, Insert(l, id, at)), ops, l.code, now);
  }

  /** An insert has exactly three answers, and both repositories may report either violation when there are two. */
  datatype InsertReply = Inserted | CodeTaken | ResourceShared

  predicate MayReply(t: Table, l: Link, reply: InsertReply) {
    match reply
    case Inserted => l.code !in t.links && !Shared(t, l.resourceType, l.resourceId)
    case CodeTaken => l.code in t.links
    case ResourceShared => Shared(t, l.resourceType, l.resourceId)
  }
}
