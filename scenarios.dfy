/**
 * Client code that drives the handlers through the helpdesk's basic
 * scenarios and checks, from the handlers' contracts alone, what each step
 * answers and leaves in the store.
 */
module Scenarios {
  import opened Wrappers
  import opened Model
  import opened TicketSchema
  import opened AuthMiddleware
  import opened TicketController

  /**
   * A requester opens "Printer broken"; an agent resolves it; another
   * requester may not read it; its requester may not change its status.
   */
  method PrinterBroken() {
    var requester := AuthUser("u1", "Usuario Demo", "usuario@demo.com", REQUESTER);
    var stranger := AuthUser("u2", "Otro", "otro@demo.com", REQUESTER);
    var agent := AuthUser("a1", "prueba Demo", "prueba@demo.com", AGENT);
    var store := new TicketStore({"u1", "u2", "a1"});

    var created := store.CreateTicket(requester,
      CreateTicketBody(Text("Printer broken"), Text("It won't turn on"), Text("Hardware"), Absent));
    assert created.Success?;
    var t := created.value;
    assert t.status == OPEN && t.priority == MEDIUM && t.requesterId == "u1";
    assert store.events[t.id] == [Event(t.id, "u1", TicketCreated("Printer broken"), t.createdAt)];

    StatusBodyRoundTrip(RESOLVED);
    var resolved := store.UpdateStatus(agent, t.id, StatusBodyOf(RESOLVED), false);
    assert resolved.Success? && resolved.value.status == RESOLVED;
    assert |store.events[t.id]| == 2;
    assert store.events[t.id][1].kind == StatusChanged(OPEN, RESOLVED);
    assert store.events[t.id][1].actorId == "a1";

    var peek := store.GetTicket(stranger, t.id);
    assert peek == Failure(Forbidden);
    var missing := store.GetTicket(stranger, t.id + 1);
    assert missing == Failure(NotFound);

    StatusBodyRoundTrip(CLOSED);
    var refused := store.UpdateStatus(requester, t.id, StatusBodyOf(CLOSED), false);
    assert refused == Failure(Forbidden);
    assert store.tickets[t.id].status == RESOLVED;
  }

  /**
   * An agent assigns a new ticket: an id that names no user is refused and
   * changes nothing; the agent's own id is taken and logged.
   */
  method HandOver() {
    var requester := AuthUser("u1", "Usuario Demo", "usuario@demo.com", REQUESTER);
    var agent := AuthUser("a1", "prueba Demo", "prueba@demo.com", AGENT);
    var store := new TicketStore({"u1", "a1"});

    var created := store.CreateTicket(requester,
      CreateTicketBody(Text("VPN down"), Text("Cannot connect"), Text("Network"), Text("HIGH")));
    assert created.Success?;
    var t := created.value;

    var toNobody := store.AssignTicket(agent, t.id, Text("nobody"), false);
    assert toNobody == Failure(StoreFailure) && store.tickets[t.id].assignedToId == None;
    assert |store.events[t.id]| == 1;
    var handedOver := store.AssignTicket(agent, t.id, Text("a1"), false);
    assert handedOver.Success? && handedOver.value.assignedToId == Some("a1");
    assert store.tickets[t.id].requesterId == "u1";
    assert store.events[t.id][1].kind == AssignedChanged(None, Some("a1"));
  }

  /** A request with a valid bearer token reaches the handler as its user; a lower-case scheme does not. */
  method BearerRequests() {
    var user := AuthUser("u1", "Usuario Demo", "usuario@demo.com", REQUESTER);
    var users := map["u1" := user];
    var verify := (token: string) => if token == "tok" then Some("u1") else None;

    var ok := new Exchange(Some(BearerPrefix + "tok"));
    BearerTokenOf("tok");
    ok.Auth(verify, users);
    assert ok.user == Some(user) && ok.nextCalls == 1 && ok.response == None;

    var lower := new Exchange(Some("bearer tok"));
    LowerCaseSchemeRefused("tok");
    lower.Auth(verify, users);
    assert lower.response == Some(Unauthorized(NotAuthorizedMessage)) && lower.nextCalls == 0;

    ok.RequireRole([AGENT, ADMIN]);
    assert ok.response == Some(Forbidden) && ok.nextCalls == 1;
  }
}
