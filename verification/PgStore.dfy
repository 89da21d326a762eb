/**
 The database repository: what its statements do to the table, given the two unique
 constraints, and why the batched update adds each delta exactly once.
 */
module PgStore {
  import opened Wrappers
  import opened Sets
  import opened Domain
  import opened Repository

  /** The rows of unnest(ids), unnest(counts). */
  predicate Pairs(ids: seq<int>, counts: seq<int>, deltas: map<int, int>) {
    && |ids| == |counts|
    && (forall i, j :: 0 <= i < j < |ids| ==> ids[i] != ids[j])
    && (forall i :: 0 <= i < |ids| ==> ids[i] in deltas && counts[i] == deltas[ids[i]])
  }

  /** Ranges over the map once, filling both slices. */
  method Columns(deltas: map<int, int>) returns (ids: seq<int>, counts: seq<int>)
    ensures Pairs(ids, counts, deltas) && forall id :: id in ids <==> id in deltas
  {
    ids, counts := [], [];
    var todo := deltas.Keys;
    while todo != {}
      invariant todo <= deltas.Keys && Pairs(ids, counts, deltas)
      invariant forall id :: id in ids <==> id in deltas.Keys - todo
      decreases todo
    {
      var id := PickOne(todo);
      assert forall i :: 0 <= i < |ids| ==> ids[i] in ids;
      ids, counts := ids + [id], counts + [deltas[id]];
      todo := todo - {id};
    }
  }

  /** UPDATE ... FROM: a row that joins is updated once, by any one of the rows it joins with. */
  ghost predicate JoinUpdates(l: Link, ids: seq<int>, counts: seq<int>, m: Link)
    requires |ids| == |counts|
  {
    if l.id in ids then exists i :: 0 <= i < |ids| && ids[i] == l.id && m == l.(viewCount := l.viewCount + counts[i])
    else m == l
  }

  /** The statement of AddViews. */
  ghost predicate Statement(links: map<string, Link>, ids: seq<int>, counts: seq<int>, links': map<string, Link>)
    requires |ids| == |counts|
  {
    links'.Keys == links.Keys && forall c :: c in links ==> JoinUpdates(links[c], ids, counts, links'[c])
  }

  /** Because no id occurs twice, the statement has one result, and it adds every delta once. */
  lemma StatementAddsDeltas(t: Table, deltas: map<int, int>, ids: seq<int>, counts: seq<int>, links': map<string, Link>)
    requires Pairs(ids, counts, deltas) && forall id :: id in deltas ==> id in ids
    ensures Statement(t.links, ids, counts, links') <==> Table(links', t.lastId) == Next(t, Op.AddViews(deltas))
  {
    forall l: Link, m: Link ensures JoinUpdates(l, ids, counts, m) <==> m == WithViews(l, deltas) {
      if l.id in deltas {
        var k :| 0 <= k < |ids| && ids[k] == l.id;
        assert m == WithViews(l, deltas) ==> m == l.(viewCount := l.viewCount + counts[k]);
      }
    }
    if Statement(t.links, ids, counts, links') {
      assert links' == Next(t, Op.AddViews(deltas)).links;
    }
  }

  lemma RowInserted(t: Table, l: Link, at: int)
    requires Consistent(t) && 0 <= t.lastId
    ensures var id := t.lastId + 1;
            var u := Table(t.links[l.code := l.(id := id, createdAt := at)], id);
      MayReply(t, l, Inserted) ==> u == Next(t, Op.Insert(l, id, at)) && Consistent(u)
  {
    StepConsistent(t, Op.Insert(l, t.lastId + 1, at));
  }

  /** An id that no link gets does no harm. */
  lemma IdBurnt(t: Table)
    requires Consistent(t)
    ensures Consistent(t.(lastId := t.lastId + 1))
  {
    var u := t.(lastId := t.lastId + 1);
    forall c, d, rt, rid | LiveOn(u, c, rt, rid) && LiveOn(u, d, rt, rid) ensures c == d {
      assert LiveOn(t, c, rt, rid) && LiveOn(t, d, rt, rid);
    }
  }

  const CODE_CONSTRAINT := "uq_share_links_code"
  const RESOURCE_CONSTRAINT := "uq_share_links_active_resource"

  /** What the database reports: a violated unique constraint by its name, or anything else. */
  datatype DbError = UniqueViolation(constraint: string) | OtherError

  /** `constraint` is one that an insert of `l` violates. */
  predicate Violates(t: Table, l: Link, constraint: string) {
    || (constraint == CODE_CONSTRAINT && l.code in t.links)
    || (constraint == RESOURCE_CONSTRAINT && Shared(t, l.resourceType, l.resourceId))
  }

  /** The constraint the database reports; of two it may report either. */
  function Reported(t: Table, l: Link, codeFirst: bool): (c: Option<string>)
    ensures if c.Some? then Violates(t, l, c.value) else MayReply(t, l, Inserted)
  {
    var taken, shared := l.code in t.links, Shared(t, l.resourceType, l.resourceId);
    if taken && (codeFirst || !shared) then Some(CODE_CONSTRAINT)
    else if shared then Some(RESOURCE_CONSTRAINT)
    else None
  }

  /** The partial index means that the submission is shared; any other constraint, that the code is taken. */
  function ErrorOf(e: DbError): Error {
    match e
    case UniqueViolation(constraint) => if constraint == RESOURCE_CONSTRAINT then AlreadyShared else DuplicateCode
    case OtherError => Unavailable
  }

  /** The mapping by name tells the two violations apart, and both from any other error. */
  lemma ErrorsByName(t: Table, l: Link, e: DbError)
    requires e.UniqueViolation? ==> Violates(t, l, e.constraint)
    ensures ErrorOf(e) == DuplicateCode <==> e == UniqueViolation(CODE_CONSTRAINT)
    ensures ErrorOf(e) == AlreadyShared <==> e == UniqueViolation(RESOURCE_CONSTRAINT)
    ensures ErrorOf(e) == DuplicateCode ==> MayReply(t, l, CodeTaken)
    ensures ErrorOf(e) == AlreadyShared ==> MayReply(t, l, ResourceShared)
  {
    assert CODE_CONSTRAINT[15] != RESOURCE_CONSTRAINT[15];
  }

  class LinkRepository {
    var links: map<string, Link>
    /** The sequence behind the id column; a rejected insert has already drawn from it. */
    var sequence: int

    function Contents(): Table
      reads this
    {
      Table(links, sequence)
    }

    ghost predicate Valid()
      reads this
    {
      Consistent(Contents()) && 0 <= sequence
    }

    /** The INSERT statement. Of two violated constraints it reports either; it may also fail for other reasons. */
    method Execute(l: Link, at: int, codeFirst: bool, down: bool) returns (r: Result<Link, DbError>)
      requires Valid()
      modifies this
      ensures Valid() && sequence == old(sequence) + 1
      ensures var t := old(Contents());
        match r
        case Success(inserted) =>
          MayReply(t, l, Inserted) && Contents() == Next(t, Op.Insert(l, sequence, at)) && inserted == links[l.code]
        case Failure(e) =>
          links == old(links) && (if e.UniqueViolation? then Violates(t, l, e.constraint) else down)
    {
      ghost var t := Contents();
      IdBurnt(t);
      RowInserted(t, l, at);
      hide Consistent;
      hide Next;
      hide Shared;
      hide MayReply;
      hide Violates;
      var reported := Reported(Contents(), l, codeFirst);
      sequence := sequence + 1;
      if down {
        return Failure(OtherError);
      }
      if reported.Some? {
        return Failure(UniqueViolation(reported.value));
      }
      var inserted := l.(id := sequence, createdAt := at);
      links := links[l.code := inserted];
      return Success(inserted);
    }

    method Insert(l: Link, at: int, codeFirst: bool, down: bool) returns (r: Result<Link, Error>)
      requires Valid()
      modifies this
      ensures Valid() && sequence == old(sequence) + 1
      ensures var t := old(Contents());
        match r
        case Success(inserted) =>
          MayReply(t, l, Inserted) && Contents() == Next(t, Op.Insert(l, sequence, at)) && inserted == links[l.code]
        case Failure(DuplicateCode) => MayReply(t, l, CodeTaken) && links == old(links)
        case Failure(AlreadyShared) => MayReply(t, l, ResourceShared) && links == old(links)
        case Failure(e) => e == Unavailable && down && links == old(links)
    {
      ghost var t := Contents();
      var executed := Execute(l, at, codeFirst, down);
      hide Consistent;
      match executed {
        case Success(inserted) => return Success(inserted);
        case Failure(e) =>
          ErrorsByName(t, l, e);
          return Failure(ErrorOf(e));
      }
    }

    /** Sends both slices; a statement that fails has no effect. */
    method AddViews(deltas: map<int, int>, down: bool) returns (r: Result<(), Error>, ids: seq<int>, counts: seq<int>)
      requires Valid()
      modifies this
      ensures Valid() && Pairs(ids, counts, deltas) && sequence == old(sequence) && r.Failure? == down
      ensures if down then links == old(links) else Statement(old(links), ids, counts, links)
      ensures Contents() == if down then old(Contents()) else Next(old(Contents()), Op.AddViews(deltas))
    {
      ghost var t := Contents();
      StepConsistent(t, Op.AddViews(deltas));
      ids, counts := Columns(deltas);
      if down {
        return Failure(Unavailable), ids, counts;
      }
      r := Success(());
      links := map c | c in links :: WithViews(links[c], deltas);
      StatementAddsDeltas(t, deltas, ids, counts, links);
    }
  }
}
