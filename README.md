# helpdesk-lite ticket lifecycle in Dafny

This project models the backend core of helpdesk-lite, a small helpdesk
ticketing service. It covers three pieces:

- **Ticket handlers** (`backend/src/controllers/ticket.controller.ts`):
  - `createTicket`, `getTicket`, `addComment`, `updateStatus` and
    `assignTicket` run over an in-memory ticket store.
  - `listTickets` is a pure query over the ticket table.
- **Request-body validators** (`backend/src/schemas/ticket.schema.ts`).
- **Authentication middleware** (`backend/src/middleware/auth.middleware.ts`):
  `auth` and `requireRole`.

Files:

- `wrappers.dfy`: the `Option` and `Result` datatypes.
- `model.dfy`: the database rows and enumerations (users' public fields,
  tickets, comments, audit events, roles, priorities, statuses) and the error
  responses (400, 401, 403, 404, and 500 for a write that fails).
- `ticket_schema.dfy`: each zod schema as a parse function over the members of
  a JSON body. A member can be absent, null, a string, or some other JSON value.
- `auth_middleware.dfy`:
  - the Bearer-prefix check and the token slice;
  - the decision `auth` takes;
  - the class `Exchange`, one request passing through the middleware. Its
    methods assign `req.user`, send the error response and call `next`.
- `ticket_listing.dfy`: `listTickets`. It clamps the page and the page size,
  builds the role-scoped filter, sorts newest-updated first, cuts the page
  window and computes the page count.
- `ticket_controller.dfy`: the class `TicketStore`. It holds the ticket
  table, each ticket's comments and audit events, and an abstract clock.
  - Each database write is one method: `WriteComment`, `WriteEvent` and
    `WriteTicket`.
  - The handlers are methods that call those writes one after another, as
    the source does.
  - `getTicket` is a function.
- `scenarios.dfy`: client methods that drive the handlers through the basic
  scenarios. They check each outcome from the handlers' contracts alone.

How the model stands in for what it cannot see:

- **Token verification.** `jwt.verify` is a parameter
  `verify: string -> Option<UserId>`. It gives the token's subject, or None
  when verification throws.
- **User lookup.** The user table is a map from user id to the user's public
  fields.
- **Case-insensitive search.** The `mode: "insensitive"` substring search is a
  substring search after a case fold. The fold is a parameter
  `fold: char -> char`.
- **Timestamps.** `createdAt` and `updatedAt` come from a store clock. Every
  write advances the clock by one.
- **Ticket ids.** A ticket's id is its position in the table.

## Behaviour worth knowing

- **Two-write handlers are not atomic.** Only `createTicket` writes its
  ticket and its first event together, in one nested create.
  `addComment`, `updateStatus` and `assignTicket` each make two separate
  writes.
  - These handlers take an `eventWriteFails` parameter. When it is true, the
    first write has already taken effect, no event is appended, and the
    handler fails with `StoreFailure`.
  - Their contracts state that partial state exactly.
- **The body is checked before the role.** `updateStatus` and
  `assignTicket` validate the body first (400), then check the role (403),
  then check that the ticket exists (404).
- **Assignees are checked only by the database.** The schema accepts any
  string, and no code checks the assignee's role. The assignee column refers
  to the user table, so the database refuses an id that names no user. The
  update then fails, no event is written, and nothing changes.
- **The scheme is case-sensitive.** The code accepts only the exact prefix
  `"Bearer "`, with that capitalisation and one space. Section 2.1 of RFC 6750
  builds on the HTTP authentication framework of RFC 7235, where scheme names
  are case-insensitive. `AuthMiddleware.LowerCaseSchemeRefused` shows that a
  lower-case `bearer` is refused.

## Model

| member | source | states |
|---|---|---|
| `TicketSchema.MinString` | backend/src/schemas/ticket.schema.ts:4-6 | `z.string().min(n)` accepts exactly the string members of at least `n` characters and yields that string |
| `TicketSchema.ParsePriority` | backend/src/schemas/ticket.schema.ts:7 | a string is accepted exactly when it spells one of LOW/MEDIUM/HIGH/URGENT, and the result is the priority it spells |
| `TicketSchema.PriorityNameRoundTrip` | backend/src/schemas/ticket.schema.ts:7 | every priority's name parses back to that priority |
| `TicketSchema.ParseStatus` | backend/src/schemas/ticket.schema.ts:15 | a string is accepted exactly when it spells one of OPEN/IN_PROGRESS/RESOLVED/CLOSED, and the result is the status it spells |
| `TicketSchema.StatusNameRoundTrip` | backend/src/schemas/ticket.schema.ts:15 | every status's name parses back to that status |
| `TicketSchema.ParseCreateTicket` | backend/src/schemas/ticket.schema.ts:3-8 | a create body is valid iff title ≥ 3, description ≥ 5 and category ≥ 2 characters, and priority is absent or names a priority; the result carries exactly those strings, and no priority exactly when none was sent |
| `TicketSchema.CreateBodyRoundTrip` | backend/src/schemas/ticket.schema.ts:3-8 | every ticket whose fields meet the minimums, with or without a priority, parses back from the body a client sends for it |
| `TicketSchema.ParseComment` | backend/src/schemas/ticket.schema.ts:10-12 | a comment body is valid iff it is a non-empty string, and the result is that string |
| `TicketSchema.ParseStatusField` | backend/src/schemas/ticket.schema.ts:14-16 | a status body is valid iff it is a string naming one of the four statuses, and the result is the status named |
| `TicketSchema.StatusBodyRoundTrip` | backend/src/schemas/ticket.schema.ts:14-16 | the body sent for any status parses back to it |
| `TicketSchema.ParseAssign` | backend/src/schemas/ticket.schema.ts:18-20 | an assignee is valid iff it is a string or null; null means no assignee and a string is taken as it is; the schema does not check that it names a user |
| `TicketSchema.AssignBodyRoundTrip` | backend/src/schemas/ticket.schema.ts:18-20 | the body sent for any assignee, or for none, parses back to it |
| `AuthMiddleware.BearerToken` | backend/src/middleware/auth.middleware.ts:5-9 | a token is found iff the header is present and starts with `"Bearer "`; the header is then exactly the prefix followed by the token |
| `AuthMiddleware.BearerTokenOf` | backend/src/middleware/auth.middleware.ts:9 | whatever token follows the prefix is the one passed to verification |
| `AuthMiddleware.LowerCaseSchemeRefused` | backend/src/middleware/auth.middleware.ts:6 | a header with a lower-case `bearer` scheme has no token |
| `AuthMiddleware.Authenticate` | backend/src/middleware/auth.middleware.ts:4-26 | a request is let through iff its header is `"Bearer "` plus a token that verifies to the id of an existing user, and it then acts as that user; every refusal is a 401, and it is "Token inválido" exactly when a bearer token fails verification, and "No autorizado" in every other case (no bearer header, or no such user) |
| `AuthMiddleware.Includes` | backend/src/middleware/auth.middleware.ts:30 | `roles.includes(role)` holds iff some position of `roles` holds `role` |
| `AuthMiddleware.Exchange.Auth` | backend/src/middleware/auth.middleware.ts:4-26 | on success `req.user` becomes the looked-up user and `next` is called once with no response sent; on failure the 401 is sent, `req.user` stays and `next` is not called |
| `AuthMiddleware.Exchange.RequireRole` | backend/src/middleware/auth.middleware.ts:28-34 | a caller whose role is listed goes on to `next` exactly once with nothing sent; any other caller gets 403 and `next` is not called |
| `TicketListing.PageNumber` | backend/src/controllers/ticket.controller.ts:37 | the page is at least 1, is the requested page when that is at least 1, and is 1 otherwise |
| `TicketListing.PageSize` | backend/src/controllers/ticket.controller.ts:38 | the page size lies in [5, 50]; it is 10 when not given, the requested size when that is in range, and the nearer bound otherwise |
| `TicketListing.Skip` | backend/src/controllers/ticket.controller.ts:39 | the number of skipped tickets is never negative, and is zero exactly on the first page |
| `TicketListing.TotalPages` | backend/src/controllers/ticket.controller.ts:81 | the page count is `ceil(total / limit)`: the fewest pages of `limit` tickets that hold `total` tickets |
| `TicketListing.PageNonEmpty` | backend/src/controllers/ticket.controller.ts:39 | a page starts inside the matching tickets iff its number is at most `totalPages` |
| `TicketListing.Contains` | backend/src/controllers/ticket.controller.ts:55-56 | `contains` holds iff the pattern occurs at some position of the text |
| `TicketListing.Filter` | backend/src/controllers/ticket.controller.ts:44-60 | a ticket is kept iff it is in the table and passes the `where`: a REQUESTER's own tickets only, then exact status, priority and category, and the query in the title or the description |
| `TicketListing.StaffFilterKeepsAll` | backend/src/controllers/ticket.controller.ts:44-45 | with no filters, an agent's or admin's `where` keeps the whole table |
| `TicketListing.FilterIgnoresPaging` | backend/src/controllers/ticket.controller.ts:47-60 | page and limit play no part in which tickets match |
| `TicketListing.Insert` | backend/src/controllers/ticket.controller.ts:65 | inserting a ticket into a newest-first list keeps it newest first and adds exactly that ticket |
| `TicketListing.SortNewestFirst` | backend/src/controllers/ticket.controller.ts:65 | the order `updatedAt desc` is a permutation of the matching tickets, most recently updated first |
| `TicketListing.Window` | backend/src/controllers/ticket.controller.ts:66-67 | `skip` then `take`: the consecutive tickets starting at position `skip`, `min(limit, length - skip)` of them, and none iff `skip` is past the end |
| `TicketListing.ListTickets` | backend/src/controllers/ticket.controller.ts:36-83 | page and limit are the clamped request (page ≥ 1; limit in [5, 50], 10 by default, the requested one when in range); `totalPages = ceil(total/limit)`; `total` is the number of matching tickets; the items are positions `(page-1)*limit` onward of the matching tickets sorted newest-updated first, `min(limit, total - skip)` of them, present iff page ≤ totalPages; every item matches the `where`, and a REQUESTER's items are all their own |
| `TicketListing.EarlierPagesNewer` | backend/src/controllers/ticket.controller.ts:65-67 | for one query, every ticket on an earlier page was updated no earlier than every ticket on a later page |
| `TicketListing.StaffTotalIsEverything` | backend/src/controllers/ticket.controller.ts:44-45 | an agent or admin listing with no filters is told the size of the whole ticket table |
| `TicketListing.LatestUpdateListedFirst` | backend/src/controllers/ticket.controller.ts:65 | the ticket updated last heads the first page of an agent's or admin's unfiltered list |
| `TicketController.KeptAcrossRuns` | backend/src/controllers/ticket.controller.ts:22 | over any history of ticket tables and event logs whose every step keeps the requesters and only extends the logs, the last state keeps the first state's requesters and extends its logs (by induction on the history) |
| `TicketController.TotalLengthUpdate` | backend/src/controllers/ticket.controller.ts:133-140 | appending to one ticket's log adds exactly that much to the store's event count |
| `TicketController.TicketStore.WriteComment` | backend/src/controllers/ticket.controller.ts:125-131 | one comment row, by the given user and stamped now, is appended to that ticket's comments, and nothing else changes |
| `TicketController.TicketStore.WriteEvent` | backend/src/controllers/ticket.controller.ts:133-140 | one event row is appended to that ticket's log, the event count grows by one, and nothing else changes |
| `TicketController.TicketStore.WriteTicket` | backend/src/controllers/ticket.controller.ts:160-163 | the row is replaced, keeping its id, requester, title and creation time, and becomes the most recently updated ticket |
| `TicketController.TicketStore.CreateTicket` | backend/src/controllers/ticket.controller.ts:9-34 | an invalid body gets 400 and changes nothing; otherwise exactly one new OPEN, unassigned ticket is added with requester = caller and priority MEDIUM unless given, plus exactly one TICKET_CREATED event by the caller recording the title |
| `TicketController.TicketStore.GetTicket` | backend/src/controllers/ticket.controller.ts:85-109 | an unknown id gets 404 before any ownership check; a REQUESTER who does not own the ticket gets 403; otherwise, and only otherwise, the ticket comes with its comments and events in ascending creation order, its log opening with the requester's TICKET_CREATED event |
| `TicketController.TicketStore.AddComment` | backend/src/controllers/ticket.controller.ts:111-143 | 400 on an empty body, then 404, then 403 for a non-owning REQUESTER, each changing nothing; otherwise one comment by the caller is appended, then one COMMENT_ADDED event whose length is the body's; if the event write fails the comment stays without its event |
| `TicketController.TicketStore.UpdateStatus` | backend/src/controllers/ticket.controller.ts:145-175 | 400 on an invalid status; 403 for a REQUESTER, whether or not the ticket exists or is theirs; 404 for an unknown ticket; otherwise only the status (and the update time) changes, to any status, and one STATUS_CHANGED event {from: old, to: new} by the caller is appended; if the event write fails the new status stays without its event |
| `TicketController.TicketStore.AssignTicket` | backend/src/controllers/ticket.controller.ts:177-206 | the same guard order as UpdateStatus; otherwise only the assignee (and the update time) changes, to the given id or to none, the requester stays, and one ASSIGNED_CHANGED event {from: old, to: new} by the caller is appended; an assignee that names no user makes the update fail and changes nothing; if the event write fails the new assignee stays without its event |
| `TicketController.ListedTicketsOpen` | backend/src/controllers/ticket.controller.ts:103-106 | every ticket a list response shows its caller, that caller can open with getTicket |

## Left out

- **Database and concurrency.** Persistence, Prisma's query engine, and the
  `Promise.all` concurrency of `listTickets`. Two concurrent requests that
  interleave their reads and writes are also not modelled. Each handler runs
  alone against the store.
- **Other database failures.** Modelled are the failure of the second write
  of a two-write handler, and the refusal of an assignee that names no user.
  Other failing reads and writes, and a failing nested create, are not. The
  500 code for `StoreFailure` stands for the framework's generic error
  response. That response depends on the Express version.
- **Database schema.** The database schema is not part of this model. New
  tickets are OPEN here, its default status. The assignee column is taken to
  be a foreign key to the user table, as its use as a relation in the
  handlers shows.
- **Real time.** Timestamps are the values of an abstract clock. Two writes
  never share a timestamp here, though real clocks can give two writes the
  same one.
- **Id format.** Ids of comments and events are left out. Ticket ids are the
  position in the table, not generated strings.
- **Joined user fields.** `getTicket` and `listTickets` also return the
  requester's, assignee's and comment author's name and email. Those joins
  are left out.
- **Validation details.** The 400 response carries the zod error details; the
  model keeps only the code. zod also strips unknown members, which is not
  modelled.
- **String lengths.** JavaScript counts string length in UTF-16 code units;
  the model counts characters (Unicode scalar values). This applies to the
  zod minimums and to the `length` recorded in a COMMENT_ADDED event: a
  character outside the Basic Multilingual Plane, such as an emoji, counts 2
  in the source and 1 here.
- **Query-string coercion.** `Number()` coercion of `page` and `limit` is
  not modelled. That includes NaN, fractions and non-numeric strings. Page
  and limit are integers, or None when missing or empty. Repeated query
  parameters (arrays) are not modelled.
- **Unknown filter values.** A `status` or `priority` filter that names no
  enum value matches nothing here. The database layer would reject it with an
  error instead.
- **Ties in the sort order.** Tickets with equal `updatedAt` have no
  promised order in the source. The model's sort settles them one way.
- **Case folding.** The database collation behind `mode: "insensitive"` is
  the abstract `fold` parameter.
- **Token internals.** Signature and expiry checking inside `jwt.verify`
  (RFC 7519) is left out. So is a token whose payload has no subject: the
  oracle gives a subject or fails.
- **Failed user lookups.** A user lookup that throws inside `auth` would be
  answered "Token inválido". That case is not modelled, since the lookup
  here is a map.
- **Other parts of the repository.** The auth controller (registration and
  login are bcrypt and JWT signing), Express wiring and process startup, the
  seed script and the React frontend are not part of this model.
