/**
 Create, run concurrently: any number of callers check ownership, look for an
 existing link, draw codes and insert, one repository call at a time, while other
 operations change the table between their steps.
 */
module Allocation {
  import opened Wrappers
  import opened Domain
  import opened Repository
  import opened Limits

  datatype CreateResult = Created(link: Link) | Existing(link: Link) | Refused(error: Error)

  /** Where a call of Create stands. `rejected` are the codes it drew that were taken. */
  datatype Pc =
    | Checking
    | Looking
    | Drawing(rejected: seq<string>)
    | Inserting(rejected: seq<string>, code: string)
    | LookingAgain(rejected: seq<string>)
    | Done(rejected: seq<string>, result: CreateResult)

  datatype Caller = Caller(owner: int, resourceType: string, resourceId: int, expiresAt: Option<int>, pc: Pc)

  /** `owners` says who wrote each submission; that does not change. */
  datatype State = State(table: Table, callers: seq<Caller>, owners: map<(string, int), int>)

  /** How an insert ends: its reply, an error without effect, or an error after it committed. */
  datatype InsertEnd = Replied(reply: InsertReply) | NoEffect | CommitLost

  /** Answers of one repository or content call: its result, or a failure of the database. */
  datatype Act =
    | CheckOwner(isOwner: Option<bool>)
    | Find(found: Option<Option<string>>)
    | Draw(code: Option<string>)
    | TryInsert(end: InsertEnd, id: int, at: int)
    | FindAgain(found: Option<Option<string>>)

  datatype Label = Call(p: nat, act: Act) | Other(op: Op)

  predicate IsOwner(s: State, c: Caller) {
    (c.resourceType, c.resourceId) in s.owners && s.owners[(c.resourceType, c.resourceId)] == c.owner
  }

  /** FindByResource returns the undeleted link if there is one. */
  predicate Finds(t: Table, c: Caller, found: Option<string>) {
    if found.Some? then LiveOn(t, found.value, c.resourceType, c.resourceId)
    else !Shared(t, c.resourceType, c.resourceId)
  }

  predicate Commits(end: InsertEnd) {
    end == Replied(Inserted) || end.CommitLost?
  }

  function Candidate(c: Caller): Link
    requires c.pc.Inserting?
  {
    NewLink(c.pc.code, c.owner, c.resourceType, c.resourceId, c.expiresAt)
  }

  predicate CallEnabled(s: State, c: Caller, a: Act) {
    match a
    case CheckOwner(isOwner) => c.pc.Checking? && (isOwner == Some(true) ==> IsOwner(s, c))
    case Find(found) => c.pc.Looking? && (found.Some? ==> Finds(s.table, c, found.value))
    case Draw(_) => c.pc.Drawing?
    case TryInsert(end, id, _) =>
      && c.pc.Inserting?
      && (end.Replied? ==> MayReply(s.table, Candidate(c), end.reply))
      && (Commits(end) ==> MayReply(s.table, Candidate(c), Inserted) && s.table.lastId < id && 0 < id)
    case FindAgain(found) => c.pc.LookingAgain? && (found.Some? ==> Finds(s.table, c, found.value))
  }

  /** Environment steps: anything the repository offers but inserts, which only Create performs. */
  predicate Enabled(s: State, l: Label) {
    match l
    case Call(p, a) => p < |s.callers| && CallEnabled(s, s.callers[p], a)
    case Other(op) => !op.Insert?
  }

  function NextPc(s: State, c: Caller, a: Act): Pc
    requires CallEnabled(s, c, a)
  {
    match a
    case CheckOwner(isOwner) =>
      if !ValidResourceType(c.resourceType) then Done([], Refused(InvalidResourceType))
      else if isOwner.None? then Done([], Refused(Unavailable))
      else if isOwner.value then Looking else Done([], Refused(Forbidden))
    case Find(found) =>
      if found.None? then Done([], Refused(Unavailable))
      else if found.value.Some? then Done([], Existing(s.table.links[found.value.value]))
      else Drawing([])
    case Draw(code) =>
      if code.None? then Done(c.pc.rejected, Refused(Unavailable)) else Inserting(c.pc.rejected, code.value)
    case TryInsert(end, id, at) =>
      if !end.Replied? then Done(c.pc.rejected, Refused(Unavailable))
      else (
        match end.reply
        case Inserted => Done(c.pc.rejected, Created(Candidate(c).(id := id, createdAt := at)))
        case CodeTaken =>
          var rejected := c.pc.rejected + [c.pc.code];
          if |rejected| < MAX_CODE_RETRY then Drawing(rejected) else Done(rejected, Refused(CodeExhausted))
        case ResourceShared => LookingAgain(c.pc.rejected)
      )
    case FindAgain(found) =>
      if found.None? then Done(c.pc.rejected, Refused(Unavailable))
      else if found.value.Some? then Done(c.pc.rejected, Existing(s.table.links[found.value.value]))
      else Done(c.pc.rejected, Refused(LinkNotFound))
  }

  function NextTable(s: State, c: Caller, a: Act): Table
    requires CallEnabled(s, c, a)
  {
    if a.TryInsert? && Commits(a.end) then Next(s.table, Insert(Candidate(c), a.id, a.at)) else s.table
  }

  function Apply(s: State, l: Label): State
    requires Enabled(s, l)
  {
    match l
    case Call(p, a) =>
      var c := s.callers[p];
      s.(table := NextTable(s, c, a), callers := s.callers[p := c.(pc := NextPc(s, c, a))])
    case Other(op) => s.(table := Next(s.table, op))
  }

  predicate Legal(s: State, ls: seq<Label>)
    decreases |ls|
  {
    ls == [] || (Enabled(s, ls[0]) && Legal(Apply(s, ls[0]), ls[1..]))
  }

  function Exec(s: State, ls: seq<Label>): State
    requires Legal(s, ls)
    decreases |ls|
  {
    if ls == [] then s else Exec(Apply(s, ls[0]), ls[1..])
  }

  /** The call has not touched the repository yet. */
  predicate Initial(s: State) {
    forall p :: 0 <= p < |s.callers| ==> s.callers[p].pc.Checking?
  }

  /* ---------- Agreement on one resource ---------- */

  predicate On(c: Caller, rt: string, rid: int) {
    c.resourceType == rt && c.resourceId == rid
  }

  predicate Succeeded(c: Caller) {
    c.pc.Done? && !c.pc.result.Refused?
  }

  predicate IsCreator(c: Caller) {
    c.pc.Done? && c.pc.result.Created?
  }

  /** No step deletes the link of the resource. */
  predicate Spares(s: State, l: Label, rt: string, rid: int) {
    l.Other? && l.op.Delete? ==> !LiveOn(s.table, l.op.code, rt, rid)
  }

  predicate SparesAll(s: State, ls: seq<Label>, rt: string, rid: int)
    requires Legal(s, ls)
    decreases |ls|
  {
    ls == [] || (Spares(s, ls[0], rt, rid) && SparesAll(Apply(s, ls[0]), ls[1..], rt, rid))
  }

  /** Past the ownership check a caller is the owner; a successful one holds the live link. */
  predicate CallerSound(s: State, c: Caller, rt: string, rid: int) {
    On(c, rt, rid) ==>
      && (c.pc.Looking? || c.pc.Drawing? || c.pc.Inserting? || c.pc.LookingAgain? || Succeeded(c) ==> IsOwner(s, c))
      && (Succeeded(c) ==>
            && LiveOn(s.table, c.pc.result.link.code, rt, rid) && c.pc.result.link.ownerId == c.owner
            && Ages(c.pc.result.link, s.table.links[c.pc.result.link.code]))
      && (c.pc.LookingAgain? ==> Shared(s.table, rt, rid))
      && (c.pc.Done? && c.pc.result.Refused? ==> !c.pc.result.error.LinkNotFound?)
  }

  /** Codes that a caller rejected are taken, and they are as many as its attempts. */
  predicate AttemptsSound(t: Table, c: Caller) {
    && (!c.pc.Checking? && !c.pc.Looking? ==>
          |c.pc.rejected| <= MAX_CODE_RETRY && forall code :: code in c.pc.rejected ==> code in t.links)
    && (c.pc.Drawing? || c.pc.Inserting? ==> |c.pc.rejected| < MAX_CODE_RETRY)
    && (c.pc.Done? && c.pc.result == Refused(CodeExhausted) ==> |c.pc.rejected| == MAX_CODE_RETRY)
  }

  /** The live link belongs to the owner, and one caller at most created it. */
  ghost predicate Agreement(s: State, rt: string, rid: int) {
    && Consistent(s.table) && 0 <= s.table.lastId
    && (forall code :: LiveOn(s.table, code, rt, rid) ==>
          (rt, rid) in s.owners && s.table.links[code].ownerId == s.owners[(rt, rid)])
    && (forall p :: 0 <= p < |s.callers| ==>
          CallerSound(s, s.callers[p], rt, rid) && AttemptsSound(s.table, s.callers[p]))
    && (forall p, q :: Creates(s, p, rt, rid) && Creates(s, q, rt, rid) ==> p == q)
  }

  predicate Creates(s: State, p: int, rt: string, rid: int) {
    0 <= p < |s.callers| && On(s.callers[p], rt, rid) && IsCreator(s.callers[p])
  }

  /** What one step may do to the table, seen from the resource. */
  ghost predicate Advances(s: State, t: State, rt: string, rid: int) {
    && t.owners == s.owners && Consistent(t.table) && Evolves(s.table, t.table)
    && (forall code :: LiveOn(s.table, code, rt, rid) ==> LiveOn(t.table, code, rt, rid))
  }

  lemma OtherAdvances(s: State, op: Op, rt: string, rid: int)
    requires Agreement(s, rt, rid) && Enabled(s, Other(op)) && Spares(s, Other(op), rt, rid)
    ensures Advances(s, Apply(s, Other(op)), rt, rid)
    ensures forall code :: LiveOn(Apply(s, Other(op)).table, code, rt, rid) ==> LiveOn(s.table, code, rt, rid)
  {
    StepConsistent(s.table, op);
  }

  lemma CallAdvances(s: State, p: nat, a: Act, rt: string, rid: int)
    requires Agreement(s, rt, rid) && Enabled(s, Call(p, a))
    ensures Advances(s, Apply(s, Call(p, a)), rt, rid)
  {
    var c := s.callers[p];
    if a.TryInsert? && Commits(a.end) {
      StepConsistent(s.table, Insert(Candidate(c), a.id, a.at));
    }
  }

  /** A caller that does not move stays sound. */
  lemma CallerKept(s: State, t: State, c: Caller, rt: string, rid: int)
    requires Advances(s, t, rt, rid) && CallerSound(s, c, rt, rid) && AttemptsSound(s.table, c)
    ensures CallerSound(t, c, rt, rid) && AttemptsSound(t.table, c)
  {
    if On(c, rt, rid) && c.pc.LookingAgain? {
      var code :| code in s.table.links && LiveOn(s.table, code, rt, rid);
      assert LiveOn(t.table, code, rt, rid);
    }
  }

  /** A caller that moves stays sound. */
  lemma CallerMoves(s: State, p: nat, a: Act, rt: string, rid: int)
    requires Agreement(s, rt, rid) && Enabled(s, Call(p, a))
    ensures var t := Apply(s, Call(p, a));
      CallerSound(t, t.callers[p], rt, rid)
  {
    CallAdvances(s, p, a, rt, rid);
  }

  lemma AttemptsMove(s: State, p: nat, a: Act, rt: string, rid: int)
    requires Agreement(s, rt, rid) && Enabled(s, Call(p, a))
    ensures var t := Apply(s, Call(p, a));
      AttemptsSound(t.table, t.callers[p])
  {
    CallAdvances(s, p, a, rt, rid);
  }

  lemma CreatorsHold(s: State, rt: string, rid: int)
    requires Agreement(s, rt, rid)
    ensures forall q :: Creates(s, q, rt, rid) ==> Shared(s.table, rt, rid)
  {
    forall q | Creates(s, q, rt, rid) ensures Shared(s.table, rt, rid) {
      assert CallerSound(s, s.callers[q], rt, rid);
      assert LiveOn(s.table, s.callers[q].pc.result.link.code, rt, rid);
    }
  }

  /** Inserting on the resource needs that nobody has succeeded on it. */
  lemma InsertIsFirst(s: State, p: nat, a: Act, rt: string, rid: int)
    requires Agreement(s, rt, rid) && Enabled(s, Call(p, a))
    ensures var t := Apply(s, Call(p, a));
      && (forall q, q' :: Creates(t, q, rt, rid) && Creates(t, q', rt, rid) ==> q == q')
      && (forall code :: LiveOn(t.table, code, rt, rid) ==>
            (rt, rid) in t.owners && t.table.links[code].ownerId == t.owners[(rt, rid)])
  {
    var t := Apply(s, Call(p, a));
    assert CallerSound(s, s.callers[p], rt, rid);
    CreatorsHold(s, rt, rid);
    if Creates(t, p, rt, rid) && !Creates(s, p, rt, rid) {
      assert forall q :: !Creates(s, q, rt, rid);
    }
    assert forall q :: q != p ==> Creates(t, q, rt, rid) == Creates(s, q, rt, rid);
  }

  lemma AgreementStep(s: State, l: Label, rt: string, rid: int)
    requires Agreement(s, rt, rid) && Enabled(s, l) && Spares(s, l, rt, rid)
    ensures Agreement(Apply(s, l), rt, rid)
  {
    var t := Apply(s, l);
    match l
    case Other(op) =>
      OtherAdvances(s, op, rt, rid);
      forall p | 0 <= p < |t.callers|
        ensures CallerSound(t, t.callers[p], rt, rid) && AttemptsSound(t.table, t.callers[p])
      {
        CallerKept(s, t, s.callers[p], rt, rid);
      }
      assert forall p :: Creates(t, p, rt, rid) == Creates(s, p, rt, rid);
    case Call(p, a) =>
      CallAdvances(s, p, a, rt, rid);
      InsertIsFirst(s, p, a, rt, rid);
      CallerMoves(s, p, a, rt, rid);
      AttemptsMove(s, p, a, rt, rid);
      forall q | 0 <= q < |t.callers| && q != p
        ensures CallerSound(t, t.callers[q], rt, rid) && AttemptsSound(t.table, t.callers[q])
      {
        CallerKept(s, t, s.callers[q], rt, rid);
      }
  }

  lemma {:induction false} AgreementRun(s: State, ls: seq<Label>, rt: string, rid: int)
    requires Agreement(s, rt, rid) && Legal(s, ls) && SparesAll(s, ls, rt, rid)
    ensures Agreement(Exec(s, ls), rt, rid)
    decreases |ls|
  {
    hide Agreement;
    hide Apply;
    if ls != [] {
      AgreementStep(s, ls[0], rt, rid);
      AgreementRun(Apply(s, ls[0]), ls[1..], rt, rid);
    }
  }

  /**
   Concurrent Creates for one resource that starts without a live link agree:
   at most one reports that it created the link, all that succeed return the same
   code, owned by the caller, and none fails because the link it lost to is missing.
   */
  lemma CreatesAgree(s: State, ls: seq<Label>, rt: string, rid: int, p: nat, q: nat)
    requires Initial(s) && Consistent(s.table) && 0 <= s.table.lastId && !Shared(s.table, rt, rid)
    requires Legal(s, ls) && SparesAll(s, ls, rt, rid)
    requires var t := Exec(s, ls);
      p < |t.callers| && q < |t.callers| && On(t.callers[p], rt, rid) && On(t.callers[q], rt, rid)
    ensures var a, b := Exec(s, ls).callers[p], Exec(s, ls).callers[q];
      && (IsCreator(a) && IsCreator(b) ==> p == q)
      && (Succeeded(a) && Succeeded(b) ==> a.pc.result.link.code == b.pc.result.link.code)
      && (Succeeded(a) ==>
            && a.pc.result.link.ownerId == a.owner && IsOwner(Exec(s, ls), a)
            && a.pc.result.link.code in Exec(s, ls).table.links
            && Ages(a.pc.result.link, Exec(s, ls).table.links[a.pc.result.link.code]))
      && (a.pc.Done? ==> a.pc.result != Refused(LinkNotFound))
  {
    InitialAgreement(s, rt, rid);
    AgreementRun(s, ls, rt, rid);
    var t := Exec(s, ls);
    assert CallerSound(t, t.callers[p], rt, rid) && CallerSound(t, t.callers[q], rt, rid);
    assert Creates(t, p, rt, rid) == IsCreator(t.callers[p]) && Creates(t, q, rt, rid) == IsCreator(t.callers[q]);
  }

  lemma InitialAgreement(s: State, rt: string, rid: int)
    requires Initial(s) && Consistent(s.table) && 0 <= s.table.lastId && !Shared(s.table, rt, rid)
    ensures Agreement(s, rt, rid)
  {
    forall code ensures !LiveOn(s.table, code, rt, rid) {}
  }

  /** CodeExhausted means that three drawn codes were all already taken, and they still are. */
  lemma ExhaustionNeedsThreeTakenCodes(s: State, ls: seq<Label>, p: nat)
    requires Initial(s) && Consistent(s.table) && 0 <= s.table.lastId
    requires Legal(s, ls) && p < |Exec(s, ls).callers|
    requires Exec(s, ls).callers[p].pc.Done? && Exec(s, ls).callers[p].pc.result == Refused(CodeExhausted)
    ensures var rejected := Exec(s, ls).callers[p].pc.rejected;
      |rejected| == 3 && forall code :: code in rejected ==> code in Exec(s, ls).table.links
  {
    AttemptsRun(s, ls);
    assert AttemptsSound(Exec(s, ls).table, Exec(s, ls).callers[p]);
  }

  ghost predicate AllAttemptsSound(s: State) {
    && Consistent(s.table) && 0 <= s.table.lastId
    && forall p :: 0 <= p < |s.callers| ==> AttemptsSound(s.table, s.callers[p])
  }

  lemma {:induction false} AttemptsRun(s: State, ls: seq<Label>)
    requires AllAttemptsSound(s) && Legal(s, ls)
    ensures AllAttemptsSound(Exec(s, ls))
    decreases |ls|
  {
    if ls != [] {
      AttemptsStep(s, ls[0]);
      hide AllAttemptsSound;
      hide Apply;
      AttemptsRun(Apply(s, ls[0]), ls[1..]);
    }
  }

  lemma AttemptsStep(s: State, l: Label)
    requires AllAttemptsSound(s) && Enabled(s, l)
    ensures AllAttemptsSound(Apply(s, l))
  {
    var t := Apply(s, l);
    match l
    case Other(op) => StepConsistent(s.table, op);
    case Call(p, a) =>
      if a.TryInsert? && Commits(a.end) {
        StepConsistent(s.table, Insert(Candidate(s.callers[p]), a.id, a.at));
      }
  }

  /* ---------- Why a call is refused ---------- */

  /** The step is one that leads a caller to this refusal. */
  predicate Causes(a: Act, e: Error) {
    match e
    case Forbidden => a == CheckOwner(Some(false))
    case Unavailable =>
      || a == CheckOwner(None) || a == Find(None) || a == Draw(None) || a == FindAgain(None)
      || (a.TryInsert? && !a.end.Replied?)
    case CodeExhausted => a.TryInsert? && a.end == Replied(CodeTaken)
    case LinkNotFound => a == FindAgain(Some(None))
    case InvalidResourceType => a.CheckOwner?
    case _ => false
  }

  predicate Caused(ls: seq<Label>, p: nat, e: Error) {
    exists i :: 0 <= i < |ls| && ls[i].Call? && ls[i].p == p && Causes(ls[i].act, e)
  }

  predicate Refuses(s: State, p: nat) {
    p < |s.callers| && s.callers[p].pc.Done? && s.callers[p].pc.result.Refused?
  }

  lemma StepRefuses(s: State, l: Label, p: nat)
    requires Enabled(s, l) && Refuses(Apply(s, l), p)
    ensures |Apply(s, l).callers| == |s.callers|
    ensures Apply(s, l).callers[p].resourceType == s.callers[p].resourceType
    ensures if Refuses(s, p) then Apply(s, l).callers[p].pc == s.callers[p].pc
            else
              && l.Call? && l.p == p && Causes(l.act, Apply(s, l).callers[p].pc.result.error)
              && (Apply(s, l).callers[p].pc.result.error == InvalidResourceType <==>
                    l.act.CheckOwner? && !ValidResourceType(s.callers[p].resourceType))
  {
  }

  /** In every run a refusal has its cause among the caller's own steps, and only an unknown type is an invalid one. */
  lemma {:induction false} RefusalsHaveCauses(s: State, ls: seq<Label>, p: nat)
    requires Legal(s, ls) && p < |s.callers| && !Refuses(s, p) && Refuses(Exec(s, ls), p)
    ensures Caused(ls, p, Exec(s, ls).callers[p].pc.result.error)
    decreases |ls|
  {
    var t := Apply(s, ls[0]);
    assert |t.callers| == |s.callers|;
    if Refuses(t, p) {
      StepRefuses(s, ls[0], p);
      RefusalStays(t, ls[1..], p);
    } else {
      RefusalsHaveCauses(t, ls[1..], p);
      var i :| 0 <= i < |ls[1..]| && ls[1..][i].Call? && ls[1..][i].p == p
               && Causes(ls[1..][i].act, Exec(s, ls).callers[p].pc.result.error);
      assert ls[i + 1] == ls[1..][i];
    }
  }

  lemma {:induction false} RefusalStays(s: State, ls: seq<Label>, p: nat)
    requires Legal(s, ls) && Refuses(s, p)
    ensures Refuses(Exec(s, ls), p) && Exec(s, ls).callers[p].pc == s.callers[p].pc
    decreases |ls|
  {
    if ls != [] {
      assert Refuses(Apply(s, ls[0]), p);
      StepRefuses(s, ls[0], p);
      RefusalStays(Apply(s, ls[0]), ls[1..], p);
    }
  }

  /* ---------- No call is ever stuck ---------- */

  /** An answer that is no failure. */
  predicate Answers(a: Act) {
    match a
    case CheckOwner(isOwner) => isOwner.Some?
    case Find(found) => found.Some?
    case Draw(code) => code.Some?
    case TryInsert(end, _, _) => end.Replied?
    case FindAgain(found) => found.Some?
  }

  /** Whatever the table and whoever the caller, its next step has an answer, and an insert of a free code works. */
  lemma CallsNeverStuck(s: State, p: nat, code: string) returns (a: Act)
    requires p < |s.callers| && !s.callers[p].pc.Done?
    ensures Enabled(s, Call(p, a)) && Answers(a)
    ensures s.callers[p].pc.Checking? && IsOwner(s, s.callers[p]) ==> a == CheckOwner(Some(true))
    ensures s.callers[p].pc.Drawing? ==> a == Draw(Some(code))
    ensures var c := s.callers[p];
      c.pc.Inserting? && c.pc.code !in s.table.links && !Shared(s.table, c.resourceType, c.resourceId) ==>
        a.TryInsert? && a.end == Replied(Inserted)
  {
    var c := s.callers[p];
    var found := None;
    if Shared(s.table, c.resourceType, c.resourceId) {
      var live :| live in s.table.links && LiveOn(s.table, live, c.resourceType, c.resourceId);
      found := Some(live);
    }
    var id := if s.table.lastId < 0 then 1 else s.table.lastId + 1;
    match c.pc
    case Checking => a := CheckOwner(Some(IsOwner(s, c)));
    case Looking => a := Find(Some(found));
    case Drawing(_) => a := Draw(Some(code));
    case Inserting(_, drawn) =>
      a := TryInsert(Replied(if drawn in s.table.links then CodeTaken
                             else if found.Some? then ResourceShared else Inserted), id, 0);
    case LookingAgain(_) => a := FindAgain(Some(found));
    case Done(_, _) => a := Draw(None);
  }
}
