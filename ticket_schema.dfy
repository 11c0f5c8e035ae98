/**
 * The request-body validators of the ticket handlers
 * (backend/src/schemas/ticket.schema.ts). Each validator is a parse
 * function: it either rejects the body (the handler answers 400) or
 * returns the typed data the handler goes on with.
 */
module TicketSchema {
  import opened Wrappers
  import opened Model

  /** One member of a JSON request body, as the validators see it. */
  datatype Field = Absent | Null | Text(s: string) | NonText

  /** The members of a create-ticket body that its validator looks at. */
  datatype CreateTicketBody = CreateTicketBody(title: Field, description: Field, category: Field, priority: Field)

  /** A create-ticket body that passed validation. */
  datatype NewTicket = NewTicket(title: string, description: string, category: string, priority: Option<Priority>)

  const TitleMin: nat := 3
  const DescriptionMin: nat := 5
  const CategoryMin: nat := 2
  const CommentMin: nat := 1

  /** A string member of at least `n` characters. */
  function MinString(f: Field, n: nat): (r: Option<string>)
    ensures r.Some? <==> f.Text? && |f.s| >= n
    ensures r.Some? ==> r.value == f.s
  {
    match f
    case Text(s) => if |s| >= n then Some(s) else None
    case _ => None
  }

  /** One of the four priority names. */
  function ParsePriority(s: string): (r: Option<Priority>)
    ensures r.Some? ==> PriorityName(r.value) == s
    ensures r.None? ==> forall p: Priority :: PriorityName(p) != s
  {
    if s == "LOW" then Some(LOW)
    else if s == "MEDIUM" then Some(MEDIUM)
    else if s == "HIGH" then Some(HIGH)
    else if s == "URGENT" then Some(URGENT)
    else None
  }

  /** One of the four status names. */
  function ParseStatus(s: string): (r: Option<Status>)
    ensures r.Some? ==> StatusName(r.value) == s
    ensures r.None? ==> forall st: Status :: StatusName(st) != s
  {
    if s == "OPEN" then Some(OPEN)
    else if s == "IN_PROGRESS" then Some(IN_PROGRESS)
    else if s == "RESOLVED" then Some(RESOLVED)
    else if s == "CLOSED" then Some(CLOSED)
    else None
  }

  /** Distinct priorities have distinct names, so a name parses back to its priority. */
  lemma PriorityNameRoundTrip(p: Priority)
    ensures ParsePriority(PriorityName(p)) == Some(p)
  {
  }

  /** Distinct statuses have distinct names, so a name parses back to its status. */
  lemma StatusNameRoundTrip(st: Status)
    ensures ParseStatus(StatusName(st)) == Some(st)
  {
  }

  /**
   * createTicketSchema: title, description and category are strings of at
   * least 3, 5 and 2 characters; priority may be left out, and when given
   * must name one of the four priorities.
   */
  function ParseCreateTicket(b: CreateTicketBody): (r: Option<NewTicket>)
    ensures r.Some? <==>
      && b.title.Text? && |b.title.s| >= 3
      && b.description.Text? && |b.description.s| >= 5
      && b.category.Text? && |b.category.s| >= 2
      && (b.priority.Absent? || (b.priority.Text? && exists p: Priority :: PriorityName(p) == b.priority.s))
    ensures r.Some? ==>
      && r.value.title == b.title.s
      && r.value.description == b.description.s
      && r.value.category == b.category.s
      && (r.value.priority.None? <==> b.priority.Absent?)
      && (r.value.priority.Some? ==> PriorityName(r.value.priority.value) == b.priority.s)
  {
    var title := MinString(b.title, TitleMin);
    var description := MinString(b.description, DescriptionMin);
    var category := MinString(b.category, CategoryMin);
    var priority: Option<Option<Priority>> :=
      match b.priority
      case Absent => Some(None)
      case Text(s) => if ParsePriority(s).Some? then Some(ParsePriority(s)) else None
      case _ => None;
    if title.Some? && description.Some? && category.Some? && priority.Some? then
      Some(NewTicket(title.value, description.value, category.value, priority.value))
    else
      None
  }

  /** The request body a client sends for a ticket it wants created. */
  function CreateBodyOf(n: NewTicket): CreateTicketBody {
    CreateTicketBody(Text(n.title), Text(n.description), Text(n.category),
                     match n.priority case None => Absent case Some(p) => Text(PriorityName(p)))
  }

  /** Every ticket whose fields meet the minimums survives the trip through its request body. */
  lemma CreateBodyRoundTrip(n: NewTicket)
    requires |n.title| >= TitleMin && |n.description| >= DescriptionMin && |n.category| >= CategoryMin
    ensures ParseCreateTicket(CreateBodyOf(n)) == Some(n)
  {
  }

  /** addCommentSchema: the body is a string of at least one character. */
  function ParseComment(body: Field): (r: Option<string>)
    ensures r.Some? <==> body.Text? && body.s != []
    ensures r.Some? ==> r.value == body.s
  {
    MinString(body, CommentMin)
  }

  /** updateStatusSchema: the status is one of the four status names. */
  function ParseStatusField(status: Field): (r: Option<Status>)
    ensures r.Some? <==> status.Text? && exists st: Status :: StatusName(st) == status.s
    ensures r.Some? ==> StatusName(r.value) == status.s
  {
    match status
    case Text(s) => ParseStatus(s)
    case _ => None
  }

  /** The request body a client sends to move a ticket to `st`. */
  function StatusBodyOf(st: Status): Field {
    Text(StatusName(st))
  }

  lemma StatusBodyRoundTrip(st: Status)
    ensures ParseStatusField(StatusBodyOf(st)) == Some(st)
  {
  }

  /**
   * assignSchema: the assignee is a string or null (null clears the
   * assignment). Nothing checks that the string names a user, let alone an
   * agent or an admin.
   */
  function ParseAssign(assignedToId: Field): (r: Option<Option<UserId>>)
    ensures r.Some? <==> assignedToId.Null? || assignedToId.Text?
    ensures r == Some(None) <==> assignedToId.Null?
    ensures assignedToId.Text? ==> r == Some(Some(assignedToId.s))
  {
    match assignedToId
    case Null => Some(None)
    case Text(s) => Some(Some(s))
    case _ => None
  }

  /** The request body a client sends to assign a ticket to `a` (or to clear it). */
  function AssignBodyOf(a: Option<UserId>): Field {
    match a
    case None => Null
    case Some(id) => Text(id)
  }

  lemma AssignBodyRoundTrip(a: Option<UserId>)
    ensures ParseAssign(AssignBodyOf(a)) == Some(a)
  {
  }
}
