/** The Swap record: two parties, the skills each side brings, a message and a status. */
module SwapModel {
  import opened Wrappers
  import opened UserModel

  /** `status`: the four values of the schema's enum. */
  datatype Status = Pending | Accepted | Rejected | Completed

  function StatusName(st: Status): string {
    match st
    case Pending => "pending"
    case Accepted => "accepted"
    case Rejected => "rejected"
    case Completed => "completed"
  }

  /** The enum validator: a string is accepted exactly when it names one of the four statuses. */
  function ParseStatus(s: string): (r: Option<Status>)
    ensures forall st :: r == Some(st) <==> StatusName(st) == s
  {
    if s == "pending" then Some(Pending)
    else if s == "accepted" then Some(Accepted)
    else if s == "rejected" then Some(Rejected)
    else if s == "completed" then Some(Completed)
    else None
  }

  /**
   * A stored swap. Nothing in the schema relates `requester` and `responder`, so a swap of a
   * user with themselves is a value of this type like any other.
   */
  datatype Swap = Swap(
    requester: Id,
    responder: Id,
    requesterSkills: seq<string>,
    responderSkills: seq<string>,
    message: string,
    status: Status,
    createdAt: int)

  /** A swap built from the required fields; `status` takes its default. */
  function NewSwap(requester: Id, responder: Id, requesterSkills: seq<string>,
                   responderSkills: seq<string>, message: string, createdAt: int): Swap
  {
    Swap(requester, responder, requesterSkills, responderSkills, message, Pending, createdAt)
  }

  /** The query filter of the per-user listing: the user is one of the two parties. */
  predicate Involves(sw: Swap, user: Id) {
    sw.requester == user || sw.responder == user
  }
}
