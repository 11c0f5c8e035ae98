/**
 * The rows of the helpdesk database that the ticket lifecycle reads and
 * writes (users, tickets, comments, events), the enumerations they use, and
 * the error responses the handlers send.
 */
module Model {
  import opened Wrappers

  /** User ids are the opaque strings the database generates. */
  type UserId = string

  /** A ticket's id. The model numbers tickets in creation order (see TicketController.TicketStore). */
  type TicketId = nat

  datatype Role = REQUESTER | AGENT | ADMIN

  datatype Priority = LOW | MEDIUM | HIGH | URGENT

  datatype Status = OPEN | IN_PROGRESS | RESOLVED | CLOSED

  /** The spelling of a priority in requests, query strings and the database. */
  function PriorityName(p: Priority): string {
    match p
    case LOW => "LOW"
    case MEDIUM => "MEDIUM"
    case HIGH => "HIGH"
    case URGENT => "URGENT"
  }

  /** The spelling of a status in requests, query strings and the database. */
  function StatusName(s: Status): string {
    match s
    case OPEN => "OPEN"
    case IN_PROGRESS => "IN_PROGRESS"
    case RESOLVED => "RESOLVED"
    case CLOSED => "CLOSED"
  }

  /** The caller identity that the auth middleware attaches to a request (`req.user`). */
  datatype AuthUser = AuthUser(id: UserId, name: string, email: string, role: Role)

  /**
   * A ticket row. `createdAt` and `updatedAt` are abstract timestamps handed
   * out by the store's clock; `assignedToId` is nullable.
   */
  datatype Ticket = Ticket(
    id: TicketId,
    title: string,
    description: string,
    category: string,
    priority: Priority,
    status: Status,
    requesterId: UserId,
    assignedToId: Option<UserId>,
    createdAt: nat,
    updatedAt: nat)

  /** A comment row: who wrote what on which ticket, and when. */
  datatype Comment = Comment(ticketId: TicketId, userId: UserId, body: string, createdAt: nat)

  /** The type of an audit event together with its metadata. */
  datatype EventKind =
    | TicketCreated(title: string)
    | CommentAdded(length: nat)
    | StatusChanged(fromStatus: Status, toStatus: Status)
    | AssignedChanged(fromAssignee: Option<UserId>, toAssignee: Option<UserId>)

  /** The `type` column of an event row. */
  function EventTypeName(k: EventKind): string {
    match k
    case TicketCreated(_) => "TICKET_CREATED"
    case CommentAdded(_) => "COMMENT_ADDED"
    case StatusChanged(_, _) => "STATUS_CHANGED"
    case AssignedChanged(_, _) => "ASSIGNED_CHANGED"
  }

  /** An audit event row: which ticket, which actor, what happened, when. */
  datatype Event = Event(ticketId: TicketId, actorId: UserId, kind: EventKind, createdAt: nat)

  /**
   * The error responses of the middleware and the ticket handlers.
   * `StoreFailure` is a rejected database write that no handler catches.
   */
  datatype HttpError =
    | BadRequest
    | Unauthorized(message: string)
    | Forbidden
    | NotFound
    | StoreFailure

  /** The HTTP status code each error is answered with. */
  function StatusCode(e: HttpError): (code: int)
    ensures 400 <= code < 600
    ensures code == 401 <==> e.Unauthorized?
  {
    match e
    case BadRequest => 400
    case Unauthorized(_) => 401
    case Forbidden => 403
    case NotFound => 404
    case StoreFailure => 500
  }
}
