/**
 What a request for a link answers, from the raw fields of the link, the operations
 since, the submission and the viewer. The answer without cache is shown to be this one.
 */
module Answers {
  import opened Wrappers
  import opened Domain
  import opened Repository
  import opened Coherence
  import Codes
  import Keys

  /** After the operations the link may be opened. */
  predicate MayOpen(l: Link, ops: seq<Op>, now: int) {
    && l.deletedAt == None && !DeletedIn(ops, l.code, l.ownerId)
    && LastStatus(ops, l.code, l.ownerId, l.status) == "active"
    && (l.expiresAt == None || now <= l.expiresAt.value)
  }

  /** Its submission can be shown. */
  predicate MayShow(l: Link, subs: Submissions) {
    && l.resourceId in subs && subs[l.resourceId].resourceType == l.resourceType
    && !subs[l.resourceId].deleted && subs[l.resourceId].ownerActive
  }

  /** The view is tracked under the user, or else under the digest; the owner's and crawlers' are not. */
  function TrackedFor(l: Link, v: Viewer): seq<(int, string)> {
    if v.isBot || (v.userId > 0 && v.userId == l.ownerId) then []
    else if v.userId > 0 then [(l.id, "u" + Keys.Dec(v.userId))]
    else [(l.id, "a" + v.digest)]
  }

  /**
   After any operations by anybody, a request for a code that had a link succeeds if and
   only if the link was not deleted before, its owner did not delete it since, the status
   its owner set last is active, it has not expired, and its submission can be shown;
   otherwise the link is gone and no view is tracked.
   */
  lemma AnswerOverRuns(t: Table, ops: seq<Op>, subs: Submissions, now: int, code: string, v: Viewer)
    requires Consistent(t) && 0 <= t.lastId && code in t.links && Codes.IsCode(code)
    ensures var l, a := t.links[code], CacheFree(Run(t, ops).links, subs, now, code, v);
      if MayOpen(l, ops, now) && MayShow(l, subs) then
        && a.result == Success(SharedView(code, l.resourceType, subs[l.resourceId].snapshot, l.createdAt))
        && a.tracked == TrackedFor(l, v)
      else a == Answer(Failure(LinkGone), [])
  {
    AccessOverRuns(t, ops, code, now);
    RunsEvolve(t, ops);
    var l, m := t.links[code], Run(t, ops).links[code];
    assert Ages(l, m) && l.code == code;
  }

  /** A code that is malformed, or that no link has after the operations, is not found. */
  lemma UnknownCodes(t: Table, ops: seq<Op>, subs: Submissions, now: int, code: string, v: Viewer)
    requires |code| != 8 || (exists c :: c in code && !Codes.CodeChar(c)) || code !in Run(t, ops).links
    ensures CacheFree(Run(t, ops).links, subs, now, code, v) == Answer(Failure(LinkNotFound), [])
  {
  }

  /** From its creation on, the same holds of a link with the fields it was created with. */
  lemma CreatedLinkAnswers(t: Table, owner: int, rt: string, rid: int, expiresAt: Option<int>, id: int, at: int,
                           ops: seq<Op>, subs: Submissions, now: int, code: string, v: Viewer)
    requires Consistent(t) && 0 <= t.lastId && Codes.IsCode(code)
    requires Succeeds(t, Insert(NewLink(code, owner, rt, rid, expiresAt), id, at))
    ensures var u := Next(t, Insert(NewLink(code, owner, rt, rid, expiresAt), id, at));
            var a := CacheFree(Run(u, ops).links, subs, now, code, v);
      if && !DeletedIn(ops, code, owner) && LastStatus(ops, code, owner, "active") == "active"
         && (expiresAt == None || now <= expiresAt.value)
         && rid in subs && subs[rid].resourceType == rt && !subs[rid].deleted && subs[rid].ownerActive then
        && a.result == Success(SharedView(code, rt, subs[rid].snapshot, at))
        && (a.tracked == [] <==> v.isBot || (v.userId > 0 && v.userId == owner)) && |a.tracked| <= 1
      else a == Answer(Failure(LinkGone), [])
  {
    var op := Insert(NewLink(code, owner, rt, rid, expiresAt), id, at);
    StepConsistent(t, op);
    AnswerOverRuns(Next(t, op), ops, subs, now, code, v);
  }
}
