/**
 * The ticket handlers of backend/src/controllers/ticket.controller.ts over
 * an in-memory ticket store: createTicket, getTicket, addComment,
 * updateStatus and assignTicket (listTickets is in TicketListing).
 *
 * The store keeps the ticket table, and for each ticket its comments and
 * its audit events in the order they were written. Timestamps come from an
 * abstract clock that every write advances. The handlers write one row at a
 * time, as the source does: only createTicket writes its ticket and its
 * event in one nested create, while addComment, updateStatus and
 * assignTicket make two separate writes, and the second of them may fail
 * after the first has taken effect (`eventWriteFails`).
 */
module TicketController {
  import opened Wrappers
  import opened Model
  import opened TicketSchema
  import opened AuthMiddleware
  import opened TicketListing

  /** The roles that may change a ticket's status or assignee. */
  const StaffRoles: seq<Role> := [AGENT, ADMIN]

  /** A REQUESTER may only read and comment on the tickets they opened; agents and admins on all. */
  predicate MayAccess(caller: AuthUser, t: Ticket) {
    caller.role != REQUESTER || t.requesterId == caller.id
  }

  /** A ticket with its comments and events, as getTicket answers it. */
  datatype TicketDetail = TicketDetail(ticket: Ticket, comments: seq<Comment>, events: seq<Event>)

  predicate CommentsInOrder(cs: seq<Comment>) {
    forall i, j :: 0 <= i < j < |cs| ==> cs[i].createdAt < cs[j].createdAt
  }

  predicate EventsInOrder(es: seq<Event>) {
    forall i, j :: 0 <= i < j < |es| ==> es[i].createdAt < es[j].createdAt
  }

  /** Row `id` of the ticket table, written before time `clock`. */
  predicate TicketRow(t: Ticket, id: TicketId, clock: nat) {
    t.id == id && t.createdAt <= t.updatedAt < clock
  }

  /** The comments of ticket `id`, written before time `clock`, oldest first. */
  predicate CommentLog(cs: seq<Comment>, id: TicketId, clock: nat) {
    && CommentsInOrder(cs)
    && forall k :: 0 <= k < |cs| ==> cs[k].ticketId == id && cs[k].createdAt < clock
  }

  /**
   * The audit log of ticket `t`, oldest first: it opens with the event that
   * created the ticket, by its requester, and no later event is a creation.
   */
  predicate EventLog(es: seq<Event>, t: Ticket, clock: nat) {
    && es != []
    && es[0] == Event(t.id, t.requesterId, TicketCreated(t.title), t.createdAt)
    && EventsInOrder(es)
    && (forall k :: 0 <= k < |es| ==> es[k].ticketId == t.id && es[k].createdAt < clock)
    && (forall k :: 1 <= k < |es| ==> !es[k].kind.TicketCreated?)
  }

  /** Appending an event stamped now keeps a ticket's log well formed, and a log stays well formed as time passes. */
  lemma EventLogAppend(es: seq<Event>, t: Ticket, clock: nat, e: Event)
    requires EventLog(es, t, clock)
    requires e.ticketId == t.id && e.createdAt == clock && !e.kind.TicketCreated?
    ensures EventLog(es + [e], t, clock + 1)
    ensures EventLog(es, t, clock + 1)
  {
  }

  /** Every ticket of `before` is still in `after`, with the same id, requester, title and creation time. */
  ghost predicate RequestersKept(before: seq<Ticket>, after: seq<Ticket>) {
    && |before| <= |after|
    && forall id :: 0 <= id < |before| ==>
         && after[id].id == before[id].id
         && after[id].requesterId == before[id].requesterId
         && after[id].title == before[id].title
         && after[id].createdAt == before[id].createdAt
  }

  /** Every log of `before` is a prefix of its counterpart in `after`: nothing edited, nothing removed. */
  ghost predicate LogsExtended<T>(before: seq<seq<T>>, after: seq<seq<T>>) {
    |before| <= |after| && forall id :: 0 <= id < |before| ==> before[id] <= after[id]
  }

  /**
   * Both relations hold across any run of operations: if each step of a
   * history of ticket tables and event logs keeps them, so does the whole run.
   */
  lemma {:induction false} KeptAcrossRuns(tables: seq<seq<Ticket>>, logs: seq<seq<seq<Event>>>)
    requires |tables| >= 1 && |logs| == |tables|
    requires forall k :: 0 <= k < |tables| - 1 ==> RequestersKept(tables[k], tables[k + 1])
    requires forall k :: 0 <= k < |logs| - 1 ==> LogsExtended(logs[k], logs[k + 1])
    ensures RequestersKept(tables[0], tables[|tables| - 1])
    ensures LogsExtended(logs[0], logs[|logs| - 1])
  {
    var n := |tables|;
    if n > 1 {
      KeptAcrossRuns(tables[..n - 1], logs[..n - 1]);
      assert RequestersKept(tables[n - 2], tables[n - 1]);
      assert LogsExtended(logs[n - 2], logs[n - 1]);
    }
  }

  /** The number of entries in all logs together. */
  function TotalLength<T>(logs: seq<seq<T>>): nat {
    if logs == [] then 0 else |logs[0]| + TotalLength(logs[1..])
  }

  lemma {:induction false} TotalLengthAppend<T>(logs: seq<seq<T>>, log: seq<T>)
    ensures TotalLength(logs + [log]) == TotalLength(logs) + |log|
  {
    if logs != [] {
      assert (logs + [log])[1..] == logs[1..] + [log];
      TotalLengthAppend(logs[1..], log);
    }
  }

  lemma {:induction false} TotalLengthUpdate<T>(logs: seq<seq<T>>, i: nat, log: seq<T>)
    requires i < |logs|
    ensures TotalLength(logs[i := log]) == TotalLength(logs) - |logs[i]| + |log|
  {
    if i > 0 {
      assert logs[i := log][1..] == logs[1..][i - 1 := log];
      TotalLengthUpdate(logs[1..], i - 1, log);
    }
  }

  class TicketStore {
    /** The ticket table; a ticket's id is its position. */
    var tickets: seq<Ticket>
    /** comments[id]: the comments on ticket `id`, in the order they were written. */
    var comments: seq<seq<Comment>>
    /** events[id]: the audit events of ticket `id`, in the order they were written. */
    var events: seq<seq<Event>>
    /** The timestamp the next write receives. */
    var clock: nat
    /** The ids of the user table, which the ticket's assignee column refers to. */
    const userIds: set<UserId>

    ghost predicate Valid()
      reads this
    {
      && |comments| == |tickets|
      && |events| == |tickets|
      && (forall id :: 0 <= id < |tickets| ==> TicketRow(tickets[id], id, clock))
      && (forall id :: 0 <= id < |comments| ==> CommentLog(comments[id], id, clock))
      && (forall id :: 0 <= id < |events| ==> EventLog(events[id], tickets[id], clock))
    }

    /** The number of audit events in the store. */
    function EventCount(): nat
      reads this
    {
      TotalLength(events)
    }

    constructor (userIds: set<UserId>)
      ensures Valid()
      ensures tickets == [] && comments == [] && events == []
      ensures this.userIds == userIds
    {
      tickets, comments, events, clock := [], [], [], 0;
      this.userIds := userIds;
    }

    /** An assignee the user table does not hold, which the assignee column's foreign key refuses. */
    predicate UnknownUser(assignee: Option<UserId>) {
      assignee.Some? && assignee.value !in userIds
    }

    /**
     * One `ticketComment.create`: appends `c` to the comments of its ticket,
     * stamped with the current time.
     */
    method WriteComment(ticketId: TicketId, userId: UserId, body: string) returns (c: Comment)
      requires Valid() && ticketId < |tickets|
      modifies this
      ensures Valid()
      ensures c == Comment(ticketId, userId, body, old(clock))
      ensures comments == old(comments)[ticketId := old(comments)[ticketId] + [c]]
      ensures tickets == old(tickets) && events == old(events) && clock == old(clock) + 1
    {
      c := Comment(ticketId, userId, body, clock);
      comments := comments[ticketId := comments[ticketId] + [c]];
      clock := clock + 1;
    }

    /**
     * One `ticketEvent.create` on an existing ticket: appends one event,
     * stamped with the current time, to that ticket's log.
     */
    method WriteEvent(ticketId: TicketId, actorId: UserId, kind: EventKind) returns (e: Event)
      requires Valid() && ticketId < |tickets| && !kind.TicketCreated?
      modifies this
      ensures Valid()
      ensures e == Event(ticketId, actorId, kind, old(clock))
      ensures events == old(events)[ticketId := old(events)[ticketId] + [e]]
      ensures EventCount() == old(EventCount()) + 1
      ensures tickets == old(tickets) && comments == old(comments) && clock == old(clock) + 1
    {
      e := Event(ticketId, actorId, kind, clock);
      TotalLengthUpdate(events, ticketId, events[ticketId] + [e]);
      EventLogAppend(events[ticketId], tickets[ticketId], clock, e);
      events := events[ticketId := events[ticketId] + [e]];
      clock := clock + 1;
    }

    /**
     * One `ticket.update`: replaces row `id` by `row`, whose id, requester,
     * title and creation time are those of the stored row, and stamps it
     * with the current time, which makes it the most recently updated ticket.
     */
    method WriteTicket(id: TicketId, row: Ticket) returns (updated: Ticket)
      requires Valid() && id < |tickets|
      requires row.id == id && row.requesterId == tickets[id].requesterId
      requires row.title == tickets[id].title && row.createdAt == tickets[id].createdAt
      modifies this
      ensures Valid()
      ensures updated == row.(updatedAt := old(clock))
      ensures tickets == old(tickets)[id := updated]
      ensures forall other :: 0 <= other < |tickets| && other != id ==> tickets[other].updatedAt < updated.updatedAt
      ensures comments == old(comments) && events == old(events) && clock == old(clock) + 1
    {
      updated := row.(updatedAt := clock);
      tickets := tickets[id := updated];
      clock := clock + 1;
    }

    /**
     * createTicket: a valid body yields a new OPEN, unassigned ticket whose
     * requester is the caller, with priority MEDIUM unless one is given, and
     * a log holding one TICKET_CREATED event by the caller that records the
     * title. An invalid body is answered 400 and changes nothing.
     */
    method CreateTicket(caller: AuthUser, body: CreateTicketBody) returns (r: Result<Ticket, HttpError>)
      requires Valid()
      modifies this
      ensures Valid()
      ensures r.Failure? <==> ParseCreateTicket(body).None?
      ensures r.Failure? ==> r.error == BadRequest && unchanged(this)
      ensures r.Success? ==>
        var n := ParseCreateTicket(body).value;
        var t := r.value;
        && t.id == |old(tickets)|
        && t.title == n.title && t.description == n.description && t.category == n.category
        && t.priority == n.priority.GetOr(MEDIUM)
        && t.status == OPEN
        && t.requesterId == caller.id
        && t.assignedToId == None
        && tickets == old(tickets) + [t]
        && comments == old(comments) + [[]]
        && events == old(events) + [[Event(t.id, caller.id, TicketCreated(n.title), t.createdAt)]]
        && forall id :: 0 <= id < |old(tickets)| ==> old(tickets)[id].updatedAt < t.updatedAt
      ensures RequestersKept(old(tickets), tickets)
      ensures LogsExtended(old(comments), comments) && LogsExtended(old(events), events)
      ensures EventCount() == old(EventCount()) + (if r.Success? then 1 else 0)
    {
      var parsed := ParseCreateTicket(body);
      if parsed.None? {
        return Failure(BadRequest);
      }
      var data := parsed.value;
      var now := clock;
      var ticket := Ticket(|tickets|, data.title, data.description, data.category,
                           data.priority.GetOr(MEDIUM), OPEN, caller.id, None, now, now);
      var created := Event(ticket.id, caller.id, TicketCreated(data.title), now);
      TotalLengthAppend(events, [created]);
      // one nested create: the ticket row and its first event together
      tickets, comments, events := tickets + [ticket], comments + [[]], events + [[created]];
      clock := now + 1;
      r := Success(ticket);
    }

    /**
     * getTicket: an unknown id is answered 404 whatever the caller's role;
     * a REQUESTER asking for someone else's ticket is answered 403;
     * otherwise the ticket comes with its comments and events, oldest first.
     */
    function GetTicket(caller: AuthUser, id: TicketId): (r: Result<TicketDetail, HttpError>)
      reads this
      requires Valid()
      ensures r == Failure(NotFound) <==> id >= |tickets|
      ensures r == Failure(Forbidden) <==> id < |tickets| && caller.role == REQUESTER && tickets[id].requesterId != caller.id
      ensures r.Success? <==> id < |tickets| && MayAccess(caller, tickets[id])
      ensures r.Success? ==>
        && id < |tickets|
        && r.value == TicketDetail(tickets[id], comments[id], events[id])
        && (caller.role == REQUESTER ==> r.value.ticket.requesterId == caller.id)
        && CommentsInOrder(r.value.comments)
        && EventsInOrder(r.value.events)
        && r.value.events != []
        && EventTypeName(r.value.events[0].kind) == "TICKET_CREATED"
        && r.value.events[0].kind == TicketCreated(r.value.ticket.title)
        && r.value.events[0].actorId == r.value.ticket.requesterId
    {
      if id >= |tickets| then
        Failure(NotFound)
      else if !MayAccess(caller, tickets[id]) then
        Failure(Forbidden)
      else
        Success(TicketDetail(tickets[id], comments[id], events[id]))
    }

    /**
     * addComment: a missing or empty body is answered 400, an unknown ticket
     * 404, a REQUESTER commenting on someone else's ticket 403, all without
     * a write. Otherwise the caller's comment is appended to the ticket's
     * comments, and then, in a second write, one COMMENT_ADDED event by the
     * caller recording the body's length is appended to its log.
     */
    method AddComment(caller: AuthUser, id: TicketId, body: Field, eventWriteFails: bool)
      returns (r: Result<Comment, HttpError>)
      requires Valid()
      modifies this
      ensures Valid()
      ensures tickets == old(tickets)
      ensures r == Failure(BadRequest) <==> ParseComment(body).None?
      ensures r == Failure(NotFound) <==> ParseComment(body).Some? && id >= |tickets|
      ensures r == Failure(Forbidden) <==>
        ParseComment(body).Some? && id < |tickets| && caller.role == REQUESTER && tickets[id].requesterId != caller.id
      ensures r.Failure? && r.error != StoreFailure ==> unchanged(this)
      ensures r == Failure(StoreFailure) <==>
        ParseComment(body).Some? && id < |tickets| && MayAccess(caller, tickets[id]) && eventWriteFails
      ensures r.Success? <==>
        ParseComment(body).Some? && id < |tickets| && MayAccess(caller, tickets[id]) && !eventWriteFails
      ensures r.Success? || r == Failure(StoreFailure) ==>
        && id < |tickets|
        && comments == old(comments)[id := old(comments)[id] + [Comment(id, caller.id, ParseComment(body).value, old(clock))]]
      ensures r == Failure(StoreFailure) ==> events == old(events)
      ensures r.Success? ==>
        && r.value == Comment(id, caller.id, ParseComment(body).value, old(clock))
        && events == old(events)[id := old(events)[id] + [Event(id, caller.id, CommentAdded(|r.value.body|), old(clock) + 1)]]
      ensures RequestersKept(old(tickets), tickets)
      ensures LogsExtended(old(comments), comments) && LogsExtended(old(events), events)
      ensures EventCount() == old(EventCount()) + (if r.Success? then 1 else 0)
    {
      var parsed := ParseComment(body);
      if parsed.None? {
        return Failure(BadRequest);
      }
      if id >= |tickets| {
        return Failure(NotFound);
      }
      var ticket := tickets[id];
      if caller.role == REQUESTER && ticket.requesterId != caller.id {
        return Failure(Forbidden);
      }
      var comment := WriteComment(id, caller.id, parsed.value);
      if eventWriteFails {
        return Failure(StoreFailure);
      }
      var _ := WriteEvent(id, caller.id, CommentAdded(|parsed.value|));
      r := Success(comment);
    }

    /**
     * updateStatus: an invalid status is answered 400; a caller who is not
     * an agent or admin 403, whether or not the ticket exists or is theirs;
     * an unknown ticket 404. Otherwise the ticket gets the new status (any
     * status may follow any other) and nothing else but its update time
     * changes; then, in a second write, one STATUS_CHANGED event by the
     * caller recording the old and the new status is appended to its log.
     */
    method UpdateStatus(caller: AuthUser, id: TicketId, status: Field, eventWriteFails: bool)
      returns (r: Result<Ticket, HttpError>)
      requires Valid()
      modifies this
      ensures Valid()
      ensures comments == old(comments)
      ensures r == Failure(BadRequest) <==> ParseStatusField(status).None?
      ensures r == Failure(Forbidden) <==> ParseStatusField(status).Some? && caller.role == REQUESTER
      ensures r == Failure(NotFound) <==> ParseStatusField(status).Some? && caller.role != REQUESTER && id >= |old(tickets)|
      ensures r.Failure? && r.error != StoreFailure ==> unchanged(this)
      ensures r == Failure(StoreFailure) <==>
        ParseStatusField(status).Some? && caller.role != REQUESTER && id < |old(tickets)| && eventWriteFails
      ensures r.Success? <==>
        ParseStatusField(status).Some? && caller.role != REQUESTER && id < |old(tickets)| && !eventWriteFails
      ensures r.Success? || r == Failure(StoreFailure) ==>
        && id < |tickets|
        && tickets == old(tickets)[id := old(tickets)[id].(status := ParseStatusField(status).value, updatedAt := old(clock))]
        && forall other :: 0 <= other < |tickets| && other != id ==> tickets[other].updatedAt < tickets[id].updatedAt
      ensures r == Failure(StoreFailure) ==> events == old(events)
      ensures r.Success? ==>
        && r.value == tickets[id]
        && events == old(events)[id := old(events)[id] +
             [Event(id, caller.id, StatusChanged(old(tickets)[id].status, ParseStatusField(status).value), old(clock) + 1)]]
      ensures RequestersKept(old(tickets), tickets)
      ensures LogsExtended(old(comments), comments) && LogsExtended(old(events), events)
      ensures EventCount() == old(EventCount()) + (if r.Success? then 1 else 0)
    {
      var parsed := ParseStatusField(status);
      if parsed.None? {
        return Failure(BadRequest);
      }
      if !Includes(StaffRoles, caller.role) {
        return Failure(Forbidden);
      }
      if id >= |tickets| {
        return Failure(NotFound);
      }
      var ticket := tickets[id];
      var updated := WriteTicket(id, ticket.(status := parsed.value));
      if eventWriteFails {
        return Failure(StoreFailure);
      }
      // the event's `from` is the status read before the update
      var _ := WriteEvent(id, caller.id, StatusChanged(ticket.status, parsed.value));
      r := Success(updated);
    }

    /**
     * assignTicket: a body whose assignee is neither a string nor null is
     * answered 400; a caller who is not an agent or admin 403; an unknown
     * ticket 404. Otherwise the ticket's assignee becomes the given id, or
     * none for null, and nothing else but its update time changes (the
     * requester in particular stays); then, in a second write, one
     * ASSIGNED_CHANGED event by the caller recording the old and the new
     * assignee is appended to its log. The schema accepts any string, and
     * the role of the assignee is never checked; only the assignee column's
     * foreign key refuses an id that names no user, which makes the first
     * write fail and leaves everything as it was.
     */
    method AssignTicket(caller: AuthUser, id: TicketId, assignedToId: Field, eventWriteFails: bool)
      returns (r: Result<Ticket, HttpError>)
      requires Valid()
      modifies this
      ensures Valid()
      ensures comments == old(comments)
      ensures r == Failure(BadRequest) <==> ParseAssign(assignedToId).None?
      ensures r == Failure(Forbidden) <==> ParseAssign(assignedToId).Some? && caller.role == REQUESTER
      ensures r == Failure(NotFound) <==> ParseAssign(assignedToId).Some? && caller.role != REQUESTER && id >= |old(tickets)|
      ensures r.Failure? && r.error != StoreFailure ==> unchanged(this)
      ensures r == Failure(StoreFailure) <==>
        && ParseAssign(assignedToId).Some? && caller.role != REQUESTER && id < |old(tickets)|
        && (UnknownUser(ParseAssign(assignedToId).value) || eventWriteFails)
      ensures r.Success? <==>
        && ParseAssign(assignedToId).Some? && caller.role != REQUESTER && id < |old(tickets)|
        && !UnknownUser(ParseAssign(assignedToId).value) && !eventWriteFails
      ensures ParseAssign(assignedToId).Some? && UnknownUser(ParseAssign(assignedToId).value) ==> unchanged(this)
      ensures r.Success? || (r == Failure(StoreFailure) && !UnknownUser(ParseAssign(assignedToId).value)) ==>
        && id < |tickets|
        && tickets == old(tickets)[id := old(tickets)[id].(assignedToId := ParseAssign(assignedToId).value, updatedAt := old(clock))]
        && forall other :: 0 <= other < |tickets| && other != id ==> tickets[other].updatedAt < tickets[id].updatedAt
      ensures r == Failure(StoreFailure) ==> events == old(events)
      ensures r.Success? ==>
        && r.value == tickets[id]
        && events == old(events)[id := old(events)[id] +
             [Event(id, caller.id, AssignedChanged(old(tickets)[id].assignedToId, ParseAssign(assignedToId).value), old(clock) + 1)]]
      ensures RequestersKept(old(tickets), tickets)
      ensures LogsExtended(old(comments), comments) && LogsExtended(old(events), events)
      ensures EventCount() == old(EventCount()) + (if r.Success? then 1 else 0)
    {
      var parsed := ParseAssign(assignedToId);
      if parsed.None? {
        return Failure(BadRequest);
      }
      if !Includes(StaffRoles, caller.role) {
        return Failure(Forbidden);
      }
      if id >= |tickets| {
        return Failure(NotFound);
      }
      var ticket := tickets[id];
      if UnknownUser(parsed.value) {
        // the update is refused by the foreign key, before the event is written
        return Failure(StoreFailure);
      }
      var updated := WriteTicket(id, ticket.(assignedToId := parsed.value));
      if eventWriteFails {
        return Failure(StoreFailure);
      }
      // the event's `from` is the assignee read before the update
      var _ := WriteEvent(id, caller.id, AssignedChanged(ticket.assignedToId, parsed.value));
      r := Success(updated);
    }
  }

  /** Whatever a list response shows its caller, that caller can open with getTicket. */
  lemma ListedTicketsOpen(store: TicketStore, caller: AuthUser, query: ListQuery, fold: char -> char, t: Ticket)
    requires store.Valid()
    requires t in ListTickets(store.tickets, caller, query, fold).items
    ensures t.id < |store.tickets|
    ensures store.GetTicket(caller, t.id) == Success(TicketDetail(t, store.comments[t.id], store.events[t.id]))
  {
    var i :| 0 <= i < |store.tickets| && store.tickets[i] == t;
    assert TicketRow(store.tickets[i], i, store.clock);
  }
}
