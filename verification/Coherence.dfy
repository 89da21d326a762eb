/**
 What the shared Redis holds of links and snapshots, what it means that it is true,
 and which changes keep it so. A delete that fails puts a code or a snapshot in
 doubt, until a second delete runs or the entry expires.
 */
module Coherence {
  import opened Wrappers
  import opened Domain
  import opened Repository
  import opened Limits
  import Keys
  import Codes

  /* ---------- What is stored ---------- */

  datatype Value = LinkValue(record: LinkRecord) | NotFoundMark | SnapshotValue(snapshot: Snapshot)

  datatype Entry = Entry(value: Value, expires: int)

  type Store = map<string, Entry>

  /** Which of the commands of one cached read fail: GET, the query, SET. */
  datatype Faults = Faults(read: bool, load: bool, write: bool)

  /** GET: the value if the key exists and has not expired. */
  function Fetch(kv: Store, key: string, now: int): Option<Value> {
    if key in kv && now < kv[key].expires then Some(kv[key].value) else None
  }

  /** `ownerActive` is false while the author's account is locked. */
  datatype Submission = Submission(
    resourceType: string,
    owner: int,
    ownerActive: bool,
    snapshot: Snapshot,
    deleted: bool)

  type Submissions = map<int, Submission>

  function SnapshotOf(subs: Submissions, resourceType: string, id: int): Option<Snapshot> {
    if id in subs && subs[id].resourceType == resourceType && !subs[id].deleted && subs[id].ownerActive
    then Some(subs[id].snapshot) else None
  }

  predicate IsAuthor(subs: Submissions, resourceType: string, id: int, user: int) {
    id in subs && subs[id].resourceType == resourceType && subs[id].owner == user && !subs[id].deleted
  }

  /* ---------- Resolve without a cache ---------- */

  /** The answer to a request and the view it records, if any. */
  datatype Answer = Answer(result: Result<SharedView, Error>, tracked: seq<(int, string)>)

  function Open(l: Link, subs: Submissions, now: int, v: Viewer): Answer {
    if !l.Accessible(now) then Answer(Failure(LinkGone), [])
    else
      match SnapshotOf(subs, l.resourceType, l.resourceId)
      case None => Answer(Failure(LinkGone), [])
      case Some(s) =>
        Answer(Success(SharedView(l.code, l.resourceType, s, l.createdAt)),
                if l.CountsViewFrom(v) then [(l.id, Keys.ViewerKey(v))] else [])
  }

  ghost function CacheFree(links: map<string, Link>, subs: Submissions, now: int, code: string, v: Viewer): Answer {
    if !Codes.IsCode(code) || code !in links then Answer(Failure(LinkNotFound), [])
    else Open(links[code], subs, now, v)
  }

  /** The cached record keeps every field that Resolve reads. */
  lemma OpenOfRecord(l: Link, m: Link, subs: Submissions, now: int, v: Viewer)
    requires ToRecord(l) == ToRecord(m)
    ensures Open(l, subs, now, v) == Open(m, subs, now, v)
    ensures ToRecord(ToDomain(ToRecord(l))) == ToRecord(l)
  {
  }

  function LoadedEntry(links: map<string, Link>, now: int, code: string, jitter: int): Entry {
    if code in links then Entry(LinkValue(ToRecord(links[code])), now + LINK_TTL + jitter)
    else Entry(NotFoundMark, now + NOT_FOUND_TTL)
  }

  function Loaded(kv: Store, links: map<string, Link>, now: int, code: string, jitter: int): Store {
    kv[Keys.LinkKey(code) := LoadedEntry(links, now, code, jitter)]
  }

  /** What a visit caches for its code: the answer of the repository, if it was asked and SET works. */
  function Filled(kv: Store, links: map<string, Link>, now: int, code: string, f: Faults, jitter: int): Store {
    if (!f.read && Fetch(kv, Keys.LinkKey(code), now).Some?) || f.load || f.write then kv
    else Loaded(kv, links, now, code, jitter)
  }

  /** The one exception: a "not found" cached less than a minute ago, before the link was created. */
  predicate StaleNotFound(kv: Store, links: map<string, Link>, now: int, code: string) {
    && Fetch(kv, Keys.LinkKey(code), now) == Some(NotFoundMark)
    && code in links && now - NOT_FOUND_TTL < links[code].createdAt
    && kv[Keys.LinkKey(code)].expires - NOT_FOUND_TTL <= links[code].createdAt
  }

  /* ---------- Coherence of the stored values ---------- */

  /** The record is of this link, though perhaps from before it was disabled, enabled or deleted. */
  predicate SameLink(rec: LinkRecord, l: Link) {
    rec.(status := l.status, deletedAt := l.deletedAt) == ToRecord(l)
  }

  /** What a link key holds is true. Under doubt, because a delete failed, only who the link is. */
  predicate LinkEntrySound(e: Entry, code: string, links: map<string, Link>, now: int, doubted: bool) {
    match e.value
    case LinkValue(rec) =>
      && code in links && SameLink(rec, links[code]) && e.expires <= now + LINK_TTL + LINK_JITTER
      && (now < e.expires && !doubted ==> rec == ToRecord(links[code]))
    case NotFoundMark =>
      && e.expires - NOT_FOUND_TTL <= now
      && (code in links ==> e.expires - NOT_FOUND_TTL <= links[code].createdAt)
    case SnapshotValue(_) => false
  }

  ghost predicate LinksCoherent(kv: Store, links: map<string, Link>, now: int, doubted: set<string>) {
    forall code :: Keys.LinkKey(code) in kv ==>
      LinkEntrySound(kv[Keys.LinkKey(code)], code, links, now, code in doubted)
  }

  predicate SnapshotEntrySound(e: Entry, subs: Submissions, rt: string, id: int, now: int, doubted: bool) {
    && e.value.SnapshotValue? && e.expires <= now + SNAPSHOT_TTL
    && (now < e.expires && !doubted ==> SnapshotOf(subs, rt, id) == Some(e.value.snapshot))
  }

  ghost predicate SnapshotsCoherent(kv: Store, subs: Submissions, now: int, doubted: set<(string, int)>) {
    forall rt, id :: Keys.SnapshotKey(rt, id) in kv ==>
      SnapshotEntrySound(kv[Keys.SnapshotKey(rt, id)], subs, rt, id, now, (rt, id) in doubted)
  }

  /** The two stores hold the same cached links. */
  ghost predicate SameLinks(kv: Store, kv': Store) {
    forall code :: var key := Keys.LinkKey(code);
      (key in kv <==> key in kv') && (key in kv ==> kv[key] == kv'[key])
  }

  /** The two stores hold the same cached snapshots. */
  ghost predicate SameSnapshots(kv: Store, kv': Store) {
    forall rt, id :: var key := Keys.SnapshotKey(rt, id);
      (key in kv <==> key in kv') && (key in kv ==> kv[key] == kv'[key])
  }

  lemma LinkKeysDiffer(code: string)
    ensures forall c :: Keys.LinkKey(c) == Keys.LinkKey(code) <==> c == code
    ensures forall rt, id :: Keys.SnapshotKey(rt, id) != Keys.LinkKey(code)
  {
    forall c ensures Keys.LinkKey(c) == Keys.LinkKey(code) <==> c == code {
      Keys.KeysNeverAlias(Keys.LinkEntry(c), Keys.LinkEntry(code));
    }
    forall rt, id ensures Keys.SnapshotKey(rt, id) != Keys.LinkKey(code) {
      Keys.KeysNeverAlias(Keys.SnapshotEntry(rt, id), Keys.LinkEntry(code));
    }
  }

  lemma SnapshotKeysDiffer(rt: string, id: int)
    ensures forall rt', id' :: Keys.SnapshotKey(rt', id') == Keys.SnapshotKey(rt, id) <==> rt' == rt && id' == id
    ensures forall c :: Keys.LinkKey(c) != Keys.SnapshotKey(rt, id)
  {
    forall rt', id' ensures Keys.SnapshotKey(rt', id') == Keys.SnapshotKey(rt, id) <==> rt' == rt && id' == id {
      Keys.KeysNeverAlias(Keys.SnapshotEntry(rt', id'), Keys.SnapshotEntry(rt, id));
    }
    forall c ensures Keys.LinkKey(c) != Keys.SnapshotKey(rt, id) {
      Keys.KeysNeverAlias(Keys.LinkEntry(c), Keys.SnapshotEntry(rt, id));
    }
  }

  lemma PutLink(kv: Store, links: map<string, Link>, now: int, doubted: set<string>, code: string, e: Entry)
    requires LinksCoherent(kv, links, now, doubted) && LinkEntrySound(e, code, links, now, false)
    ensures var kv' := kv[Keys.LinkKey(code) := e];
      LinksCoherent(kv', links, now, doubted) && SameSnapshots(kv, kv')
  {
    LinkKeysDiffer(code);
    hide Keys.LinkKey;
    hide Keys.SnapshotKey;
  }

  lemma PutSnapshot(kv: Store, subs: Submissions, now: int, doubted: set<(string, int)>,
                    rt: string, id: int, s: Snapshot)
    requires SnapshotsCoherent(kv, subs, now, doubted) && SnapshotOf(subs, rt, id) == Some(s)
    ensures var kv' := kv[Keys.SnapshotKey(rt, id) := Entry(SnapshotValue(s), now + SNAPSHOT_TTL)];
      SnapshotsCoherent(kv', subs, now, doubted) && SameLinks(kv, kv')
  {
    SnapshotKeysDiffer(rt, id);
    hide Keys.LinkKey;
    hide Keys.SnapshotKey;
  }

  /** Each half of the store is coherent whatever happens to the other. */
  lemma Unmixed(kv: Store, kv': Store)
    ensures SameLinks(kv, kv') ==>
              forall links, now, doubted ::
                LinksCoherent(kv, links, now, doubted) ==> LinksCoherent(kv', links, now, doubted)
    ensures SameSnapshots(kv, kv') ==>
              forall subs, now, doubted ::
                SnapshotsCoherent(kv, subs, now, doubted) ==> SnapshotsCoherent(kv', subs, now, doubted)
  {
    hide Keys.LinkKey;
    hide Keys.SnapshotKey;
    hide LinkEntrySound;
    hide SnapshotEntrySound;
  }

  /** Doubt grows by the code whose delete failed and ends with a delete that works. */
  function Doubt<T>(doubted: set<T>, x: T, failed: bool): set<T> {
    if failed then doubted + {x} else doubted - {x}
  }

  /** A link was disabled, enabled or deleted, and its first delete was sent. */
  lemma InvalidatedLink(kv: Store, links: map<string, Link>, l: Link, now: int, doubted: set<string>,
                        code: string, failed: bool)
    requires LinksCoherent(kv, links, now, doubted) && code in links
    requires l.createdAt == links[code].createdAt && SameLink(ToRecord(links[code]), l)
    ensures var kv' := if failed then kv else kv - {Keys.LinkKey(code)};
      LinksCoherent(kv', links[code := l], now, Doubt(doubted, code, failed)) && SameSnapshots(kv, kv')
  {
    LinkKeysDiffer(code);
    hide Keys.LinkKey;
    hide Keys.SnapshotKey;
  }

  /** Creating a link needs no deletion: a "not found" that is still cached is older than the link. */
  lemma CreatedLink(kv: Store, links: map<string, Link>, links': map<string, Link>, now: int, doubted: set<string>,
                    l: Link)
    requires LinksCoherent(kv, links, now, doubted) && l.code !in links && l.createdAt == now
    requires links' == links[l.code := l]
    ensures LinksCoherent(kv, links', now, doubted)
  {
  }

  /** Flushed views do not show in the cached record. */
  lemma ViewsKeepCoherence(kv: Store, t: Table, deltas: map<int, int>, now: int, doubted: set<string>)
    requires LinksCoherent(kv, t.links, now, doubted)
    ensures LinksCoherent(kv, Next(t, AddViews(deltas)).links, now, doubted)
  {
  }

  /** A submission was deleted, and the delete of its snapshot was sent. */
  lemma InvalidatedSnapshot(kv: Store, subs: Submissions, subs': Submissions, now: int, doubted: set<(string, int)>,
                            rt: string, id: int, failed: bool)
    requires SnapshotsCoherent(kv, subs, now, doubted) && id in subs && subs[id].resourceType == rt
    requires forall k :: k != id ==> (k in subs <==> k in subs') && (k in subs ==> subs'[k] == subs[k])
    ensures var kv' := if failed then kv else kv - {Keys.SnapshotKey(rt, id)};
      SnapshotsCoherent(kv', subs', now, Doubt(doubted, (rt, id), failed)) && SameLinks(kv, kv')
  {
    SnapshotKeysDiffer(rt, id);
    hide Keys.LinkKey;
    hide Keys.SnapshotKey;
  }

  /* ---------- Time ---------- */

  datatype Deletion = Deletion(key: string, at: int)

  /** The keys that due deletes remove; those of `fails` do not work. */
  function DueKeys(deletions: seq<Deletion>, now: int, fails: set<Deletion>): set<string> {
    set d | d in deletions && d.at <= now && d !in fails :: d.key
  }

  function FailedKeys(deletions: seq<Deletion>, now: int, fails: set<Deletion>): set<string> {
    set d | d in deletions && d.at <= now && d in fails :: d.key
  }

  /**
   A second delete is to come, in half a second at most, for every code in doubt but the
   unrepaired ones, whose second delete failed too.
   */
  ghost predicate Repairs(pending: seq<Deletion>, now: int, doubted: set<string>, unrepaired: set<string>) {
    && (forall d :: d in pending ==> d.at <= now + SECOND_DELETE)
    && (forall c :: c in doubted && c !in unrepaired ==> exists d :: d in pending && d.key == Keys.LinkKey(c))
  }

  lemma RepairAdded(pending: seq<Deletion>, now: int, doubted: set<string>, unrepaired: set<string>,
                    code: string, failed: bool)
    requires Repairs(pending, now, doubted, unrepaired)
    ensures Repairs(pending + [Deletion(Keys.LinkKey(code), now + SECOND_DELETE)], now,
                    Doubt(doubted, code, failed), unrepaired - {code})
  {
    var d := Deletion(Keys.LinkKey(code), now + SECOND_DELETE);
    assert d in pending + [d];
    forall c | c in Doubt(doubted, code, failed) && c !in unrepaired - {code}
      ensures exists e :: e in pending + [d] && e.key == Keys.LinkKey(c)
    {
      if c != code {
        var e :| e in pending && e.key == Keys.LinkKey(c);
        assert e in pending + [d];
      } else {
        assert d.key == Keys.LinkKey(c);
      }
    }
  }

  /** The codes still in doubt: those that still have an entry. */
  function StillDoubted(doubted: set<string>, kv: Store, now: int): set<string> {
    set c | c in doubted && Fetch(kv, Keys.LinkKey(c), now).Some?
  }

  function StillUnrepaired(doubted: set<string>, unrepaired: set<string>, failed: set<string>): set<string> {
    set c | c in doubted && (c in unrepaired || Keys.LinkKey(c) in failed)
  }

  /** Half a second on, only codes remain in doubt whose second delete failed. */
  lemma RepairsRun(kv: Store, pending: seq<Deletion>, pending': seq<Deletion>, now: int, now': int,
                   doubted: set<string>, unrepaired: set<string>, fails: set<Deletion>)
    requires Repairs(pending, now, doubted, unrepaired) && now <= now'
    requires forall d :: d in pending' <==> d in pending && now' < d.at
    ensures var doubted' := StillDoubted(doubted, kv - DueKeys(pending, now', fails), now');
            var unrepaired' := StillUnrepaired(doubted', unrepaired, FailedKeys(pending, now', fails));
      && Repairs(pending', now', doubted', unrepaired')
      && (now + SECOND_DELETE <= now' ==> doubted' <= unrepaired')
      && (fails == {} ==> unrepaired' <= unrepaired)
  {
    var kv' := kv - DueKeys(pending, now', fails);
    forall c | c in StillDoubted(doubted, kv', now') && c !in unrepaired
      ensures Keys.LinkKey(c) in FailedKeys(pending, now', fails)
           || (now' < now + SECOND_DELETE && exists d :: d in pending' && d.key == Keys.LinkKey(c))
    {
      var d :| d in pending && d.key == Keys.LinkKey(c);
      assert d.at <= now' && d !in fails ==> d.key in DueKeys(pending, now', fails);
      assert d.at <= now' && d in fails ==> d.key in FailedKeys(pending, now', fails);
    }
  }

  /** Time lets entries expire, and due deletes only remove some; an entry's lifetime ends every doubt. */
  lemma LinksAge(kv: Store, kv': Store, links: map<string, Link>, now: int, now': int, doubted: set<string>)
    requires LinksCoherent(kv, links, now, doubted) && now <= now'
    requires forall key :: key in kv' ==> key in kv && kv'[key] == kv[key]
    ensures LinksCoherent(kv', links, now', StillDoubted(doubted, kv', now'))
    ensures now + LINK_TTL + LINK_JITTER <= now' ==> StillDoubted(doubted, kv', now') == {}
  {
    hide Keys.LinkKey;
    forall c | c in doubted && now + LINK_TTL + LINK_JITTER <= now'
      ensures Fetch(kv', Keys.LinkKey(c), now').None?
    {
      assert Keys.LinkKey(c) in kv' ==> LinkEntrySound(kv[Keys.LinkKey(c)], c, links, now, true);
    }
  }

  /** The snapshots still in doubt: those not yet expired. */
  function StillVisible(doubted: set<(string, int)>, kv: Store, now: int): set<(string, int)> {
    set p | p in doubted && Fetch(kv, Keys.SnapshotKey(p.0, p.1), now).Some? :: p
  }

  lemma SnapshotsAge(kv: Store, kv': Store, subs: Submissions, now: int, now': int, doubted: set<(string, int)>)
    requires SnapshotsCoherent(kv, subs, now, doubted) && now <= now'
    requires forall key :: key in kv' ==> key in kv && kv'[key] == kv[key]
    ensures SnapshotsCoherent(kv', subs, now', StillVisible(doubted, kv', now'))
    ensures now + SNAPSHOT_TTL <= now' ==> StillVisible(doubted, kv', now') == {}
  {
    hide Keys.SnapshotKey;
    forall p | p in doubted && now + SNAPSHOT_TTL <= now'
      ensures Fetch(kv', Keys.SnapshotKey(p.0, p.1), now').None?
    {
      var key := Keys.SnapshotKey(p.0, p.1);
      assert key in kv' ==> SnapshotEntrySound(kv[key], subs, p.0, p.1, now, (p.0, p.1) in doubted);
    }
  }

  /* ---------- Owners ---------- */

  /** The view is of a link, by somebody who does not own it. */
  predicate ByAnother(links: map<string, Link>, view: (int, string)) {
    exists code :: code in links && links[code].id == view.0 && view.1 != Keys.OwnerKey(links[code])
  }

  ghost predicate OwnersUncounted(links: map<string, Link>, tracked: seq<(int, string)>) {
    forall view :: view in tracked ==> ByAnother(links, view)
  }

  /** The cached record need only be of the right link. */
  lemma TrackedByAnother(links: map<string, Link>, code: string, l: Link, v: Viewer)
    requires code in links && l.id == links[code].id && l.ownerId == links[code].ownerId && l.CountsViewFrom(v)
    ensures ByAnother(links, (l.id, Keys.ViewerKey(v)))
  {
    Keys.OwnersNeverCount(l, v);
  }

  lemma OneMoreTracked(links: map<string, Link>, tracked: seq<(int, string)>, view: (int, string))
    requires OwnersUncounted(links, tracked) && ByAnother(links, view)
    ensures OwnersUncounted(links, tracked + [view])
  {
    forall w | w in tracked + [view] ensures ByAnother(links, w) {
      assert w in tracked || w == view;
    }
  }

  lemma OwnersStayUncounted(t: Table, op: Op, tracked: seq<(int, string)>)
    requires Consistent(t) && 0 <= t.lastId && OwnersUncounted(t.links, tracked)
    ensures OwnersUncounted(Next(t, op).links, tracked)
  {
    StepConsistent(t, op);
    hide Next;
    var u := Next(t, op);
    forall view | view in tracked ensures ByAnother(u.links, view) {
      var code :| code in t.links && t.links[code].id == view.0 && view.1 != Keys.OwnerKey(t.links[code]);
      assert Ages(t.links[code], u.links[code]);
    }
  }

  /* ---------- Authors ---------- */

  /** Every link, deleted or not, was created by the author of its submission. */
  ghost predicate SharedByAuthors(links: map<string, Link>, subs: Submissions) {
    forall c :: c in links ==>
      && links[c].resourceId in subs
      && subs[links[c].resourceId].owner == links[c].ownerId
      && subs[links[c].resourceId].resourceType == links[c].resourceType
  }

  lemma AuthorsStay(t: Table, op: Op, subs: Submissions)
    requires Consistent(t) && 0 <= t.lastId && SharedByAuthors(t.links, subs)
    requires op.Insert? ==> IsAuthor(subs, op.link.resourceType, op.link.resourceId, op.link.ownerId)
    ensures SharedByAuthors(Next(t, op).links, subs)
  {
  }

  /** Ids are unique, so a tracked view carries the key of no owner of its link. */
  lemma NoViewIsTheOwners(t: Table, tracked: seq<(int, string)>, view: (int, string), code: string)
    requires Consistent(t) && OwnersUncounted(t.links, tracked) && view in tracked
    requires code in t.links && t.links[code].id == view.0
    ensures view.1 != Keys.OwnerKey(t.links[code])
  {
  }
}
