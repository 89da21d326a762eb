/** Entities and rules of the sharing domain. Times are instants in nanoseconds. */
module Domain {
  import opened Wrappers

  const STATUS_ACTIVE := "active"
  const STATUS_DISABLED := "disabled"

  predicate ValidStatus(s: string) {
    s == STATUS_ACTIVE || s == STATUS_DISABLED
  }

  predicate ValidResourceType(t: string) {
    t == "writing_submission" || t == "speaking_submission" || t == "test_result"
  }

  datatype Link = Link(
    id: int,
    code: string,
    ownerId: int,
    resourceType: string,
    resourceId: int,
    status: string,
    expiresAt: Option<int>,
    deletedAt: Option<int>,
    viewCount: int,
    createdAt: int)
  {
    /** Enabled, not deleted and not expired. */
    predicate Accessible(now: int) {
      deletedAt.None? && status == STATUS_ACTIVE && (expiresAt.Some? ==> now <= expiresAt.value)
    }

    predicate IsOwnedBy(userId: int) {
      userId > 0 && ownerId == userId
    }

    /** Neither the owner nor a crawler. */
    predicate CountsViewFrom(v: Viewer) {
      !IsOwnedBy(v.userId) && !v.isBot
    }

    predicate Live() {
      deletedAt.None?
    }
  }

  function NewLink(code: string, ownerId: int, resourceType: string, resourceId: int, expiresAt: Option<int>): Link {
    Link(0, code, ownerId, resourceType, resourceId, STATUS_ACTIVE, expiresAt, None, 0, 0)
  }

  /** `digest` is the hexadecimal hash of the visitor id; `isBot` the outcome of the signature search. */
  datatype Viewer = Viewer(userId: int, digest: string, isBot: bool)

  /** What Redis stores of a link: everything but the view count. */
  datatype LinkRecord = LinkRecord(
    id: int,
    code: string,
    ownerId: int,
    resourceType: string,
    resourceId: int,
    status: string,
    expiresAt: Option<int>,
    deletedAt: Option<int>,
    createdAt: int)

  function ToRecord(l: Link): LinkRecord {
    LinkRecord(l.id, l.code, l.ownerId, l.resourceType, l.resourceId, l.status, l.expiresAt, l.deletedAt, l.createdAt)
  }

  function ToDomain(r: LinkRecord): Link {
    Link(r.id, r.code, r.ownerId, r.resourceType, r.resourceId, r.status, r.expiresAt, r.deletedAt, 0, r.createdAt)
  }

  datatype Snapshot = Snapshot(ownerName: string, title: string, content: string, bandScore: real, feedback: string)

  datatype SharedView = SharedView(code: string, resourceType: string, snapshot: Snapshot, sharedAt: int)

  datatype Error =
    | LinkNotFound
    | LinkGone
    | Forbidden
    | InvalidResourceType
    | InvalidStatus
    | SubmissionNotFound
    | DuplicateCode
    | AlreadyShared
    | CodeExhausted
    | Unavailable
}
