/**
 * The ticket list query of the ticket controller
 * (backend/src/controllers/ticket.controller.ts, listTickets): page and
 * page-size clamping, the role-scoped filter, newest-updated-first order,
 * the page window and the page count. It is a pure function of the ticket
 * table and the request.
 */
module TicketListing {
  import opened Wrappers
  import opened Model

  /**
   * The query string of a list request. `page` and `limit` are None when the
   * parameter is missing or empty; a filter is the empty string when it is
   * missing or empty (the source skips falsy filters).
   */
  datatype ListQuery = ListQuery(
    page: Option<int>,
    limit: Option<int>,
    status: string,
    priority: string,
    category: string,
    q: string)

  /** The response of a list request. */
  datatype Listing = Listing(items: seq<Ticket>, page: int, limit: int, total: nat, totalPages: int)

  const DefaultLimit: int := 10
  const MinLimit: int := 5
  const MaxLimit: int := 50

  function Max(a: int, b: int): int { if a >= b then a else b }
  function Min(a: int, b: int): int { if a <= b then a else b }

  /** The page number: the requested one, raised to 1 when it is missing or below 1. */
  function PageNumber(raw: Option<int>): (page: int)
    ensures page >= 1
    ensures raw.Some? && raw.value >= 1 ==> page == raw.value
    ensures raw.None? || raw.value < 1 ==> page == 1
  {
    Max(1, raw.GetOr(1))
  }

  /** The page size: 10 when missing, otherwise the requested one clamped into [5, 50]. */
  function PageSize(raw: Option<int>): (limit: int)
    ensures MinLimit <= limit <= MaxLimit
    ensures raw.None? ==> limit == DefaultLimit
    ensures raw.Some? && MinLimit <= raw.value <= MaxLimit ==> limit == raw.value
    ensures raw.Some? && raw.value < MinLimit ==> limit == MinLimit
    ensures raw.Some? && raw.value > MaxLimit ==> limit == MaxLimit
  {
    Min(MaxLimit, Max(MinLimit, raw.GetOr(DefaultLimit)))
  }

  /** How many matching tickets the pages before `page` hold. */
  function Skip(page: int, limit: int): (skip: nat)
    requires page >= 1 && limit >= 1
    ensures skip == 0 <==> page == 1
  {
    MulPositive(page - 1, limit);
    (page - 1) * limit
  }

  lemma MulPositive(a: nat, b: int)
    requires b >= 1
    ensures a * b >= 0
    ensures a * b == 0 <==> a == 0
    ensures a >= 1 ==> a * b >= b
  {
  }

  /** `Math.ceil(total / limit)`: the fewest pages of `limit` tickets that hold `total` tickets. */
  function TotalPages(total: nat, limit: int): (pages: nat)
    requires limit >= 1
    ensures (pages - 1) * limit < total <= pages * limit
  {
    var pages := (total + limit - 1) / limit;
    var rem := (total + limit - 1) % limit;
    assert total + limit - 1 == pages * limit + rem;
    assert (pages - 1) * limit == pages * limit - limit;
    pages
  }

  lemma MulMonotone(a: int, b: int, c: int)
    requires a <= b && c >= 0
    ensures a * c <= b * c
  {
  }

  /** A page holds tickets exactly when its number is at most the page count. */
  lemma {:induction false} PageNonEmpty(page: int, limit: int, total: nat)
    requires page >= 1 && limit >= 1
    ensures Skip(page, limit) < total <==> page <= TotalPages(total, limit)
  {
    var pages := TotalPages(total, limit);
    if page <= pages {
      MulMonotone(page - 1, pages - 1, limit);
    } else {
      MulMonotone(pages, page - 1, limit);
    }
  }

  /** `s` with every character passed through the case fold. */
  function Folded(s: string, fold: char -> char): (r: string)
    ensures |r| == |s|
    ensures forall i :: 0 <= i < |s| ==> r[i] == fold(s[i])
  {
    seq(|s|, i requires 0 <= i < |s| => fold(s[i]))
  }

  predicate OccursAt(text: string, pattern: string, i: nat) {
    i + |pattern| <= |text| && text[i..i + |pattern|] == pattern
  }

  /** An occurrence in the text without its first character is an occurrence one position later in the text. */
  lemma OccursShift(text: string, pattern: string, i: nat)
    requires text != []
    ensures OccursAt(text[1..], pattern, i) <==> OccursAt(text, pattern, i + 1)
  {
    if i + |pattern| <= |text[1..]| {
      assert text[1..][i..i + |pattern|] == text[i + 1..i + 1 + |pattern|];
    }
  }

  /** Substring search: does `pattern` occur somewhere in `text`? */
  function Contains(text: string, pattern: string): (found: bool)
    ensures found <==> exists i: nat :: OccursAt(text, pattern, i)
    decreases |text|
  {
    if |pattern| > |text| then
      assert forall i: nat :: !OccursAt(text, pattern, i);
      false
    else if text[..|pattern|] == pattern then
      assert OccursAt(text, pattern, 0);
      true
    else
      assert (exists i: nat :: OccursAt(text, pattern, i)) <==> (exists i: nat :: OccursAt(text[1..], pattern, i)) by {
        forall i: nat | OccursAt(text[1..], pattern, i) ensures OccursAt(text, pattern, i + 1) {
          OccursShift(text, pattern, i);
        }
        forall i: nat | OccursAt(text, pattern, i) ensures i >= 1 && OccursAt(text[1..], pattern, i - 1) {
          assert i != 0;
          OccursShift(text, pattern, i - 1);
        }
      }
      Contains(text[1..], pattern)
  }

  /** `contains` with `mode: "insensitive"`: substring search after case folding both sides. */
  predicate ContainsInsensitive(text: string, q: string, fold: char -> char) {
    Contains(Folded(text, fold), Folded(q, fold))
  }

  /** The status, priority, category and free-text filters of a list request. */
  predicate FilterMatches(query: ListQuery, fold: char -> char, t: Ticket) {
    && (query.status != "" ==> StatusName(t.status) == query.status)
    && (query.priority != "" ==> PriorityName(t.priority) == query.priority)
    && (query.category != "" ==> t.category == query.category)
    && (query.q != "" ==> ContainsInsensitive(t.title, query.q, fold) || ContainsInsensitive(t.description, query.q, fold))
  }

  /**
   * The `where` of a list request: a REQUESTER sees only the tickets they
   * opened; agents and admins see every ticket. The filters apply to all.
   */
  predicate Matches(caller: AuthUser, query: ListQuery, fold: char -> char, t: Ticket) {
    && (caller.role == REQUESTER ==> t.requesterId == caller.id)
    && FilterMatches(query, fold, t)
  }

  /** The rows that satisfy the `where`, in table order. */
  function Filter(rows: seq<Ticket>, caller: AuthUser, query: ListQuery, fold: char -> char): (r: seq<Ticket>)
    ensures forall t :: t in r <==> t in rows && Matches(caller, query, fold, t)
    ensures multiset(r) <= multiset(rows)
  {
    if rows == [] then []
    else
      var rest := Filter(rows[1..], caller, query, fold);
      assert rows == [rows[0]] + rows[1..];
      if Matches(caller, query, fold, rows[0]) then [rows[0]] + rest else rest
  }

  /** Agents and admins are only narrowed by the filters: with none, they count every ticket. */
  lemma {:induction false} StaffFilterKeepsAll(rows: seq<Ticket>, caller: AuthUser, fold: char -> char)
    requires caller.role != REQUESTER
    ensures Filter(rows, caller, ListQuery(None, None, "", "", "", ""), fold) == rows
  {
    if rows != [] {
      StaffFilterKeepsAll(rows[1..], caller, fold);
    }
  }

  /** Most recently updated first. */
  predicate NewestFirst(s: seq<Ticket>) {
    forall i, j :: 0 <= i < j < |s| ==> s[i].updatedAt >= s[j].updatedAt
  }

  /** A ticket updated no earlier than the head of a newest-first list can go in front of it. */
  lemma ConsNewestFirst(t: Ticket, s: seq<Ticket>)
    requires NewestFirst(s)
    requires s != [] ==> t.updatedAt >= s[0].updatedAt
    ensures NewestFirst([t] + s)
  {
    forall i, j | 0 <= i < j < |[t] + s| ensures ([t] + s)[i].updatedAt >= ([t] + s)[j].updatedAt {
      if i == 0 {
        assert s[0].updatedAt >= s[j - 1].updatedAt;
      }
    }
  }

  /** Dropping the newest ticket keeps the rest newest first, behind it. */
  lemma TailNewestFirst(s: seq<Ticket>)
    requires NewestFirst(s) && s != []
    ensures NewestFirst(s[1..])
    ensures |s| > 1 ==> s[0].updatedAt >= s[1].updatedAt
  {
  }

  /** Putting the head back in front of a list that now also holds `t`. */
  lemma PutHeadBack(t: Ticket, s: seq<Ticket>, rest: seq<Ticket>)
    requires s != [] && NewestFirst(rest)
    requires multiset(rest) == multiset(s[1..]) + multiset{t}
    requires rest != [] && s[0].updatedAt >= rest[0].updatedAt
    ensures NewestFirst([s[0]] + rest)
    ensures multiset([s[0]] + rest) == multiset(s) + multiset{t}
  {
    ConsNewestFirst(s[0], rest);
    assert s == [s[0]] + s[1..];
  }

  function Insert(t: Ticket, s: seq<Ticket>): (r: seq<Ticket>)
    requires NewestFirst(s)
    ensures NewestFirst(r)
    ensures multiset(r) == multiset(s) + multiset{t}
    ensures |r| == |s| + 1
    ensures r != [] && (r[0] == t || (s != [] && r[0] == s[0]))
  {
    if s == [] || t.updatedAt >= s[0].updatedAt then
      ConsNewestFirst(t, s);
      [t] + s
    else
      TailNewestFirst(s);
      var rest := Insert(t, s[1..]);
      PutHeadBack(t, s, rest);
      [s[0]] + rest
  }

  /** `orderBy: { updatedAt: "desc" }` (ties keep no promised order; the model's sort settles them one way). */
  function SortNewestFirst(s: seq<Ticket>): (r: seq<Ticket>)
    ensures NewestFirst(r)
    ensures multiset(r) == multiset(s)
    ensures |r| == |s|
  {
    if s == [] then []
    else
      assert s == [s[0]] + s[1..];
      Insert(s[0], SortNewestFirst(s[1..]))
  }

  /** `skip` then `take`: the tickets of one page. */
  function Window(s: seq<Ticket>, skip: nat, limit: nat): (r: seq<Ticket>)
    ensures |r| == (if skip < |s| then Min(limit, |s| - skip) else 0)
    ensures |r| > 0 <==> skip < |s| && limit > 0
    ensures forall i :: 0 <= i < |r| ==> skip + i < |s| && r[i] == s[skip + i]
  {
    if skip >= |s| then [] else s[skip..Min(skip + limit, |s|)]
  }

  /** A page cut from the sorted tickets holds only those tickets, still newest first. */
  lemma PageOfSorted(s: seq<Ticket>, skip: nat, limit: nat)
    ensures NewestFirst(Window(SortNewestFirst(s), skip, limit))
    ensures forall t :: t in Window(SortNewestFirst(s), skip, limit) ==> t in s
  {
    var sorted := SortNewestFirst(s);
    var items := Window(sorted, skip, limit);
    forall t | t in items ensures t in s {
      var i :| 0 <= i < |items| && items[i] == t;
      assert sorted[skip + i] in multiset(sorted);
    }
  }

  /**
   * listTickets: one page of the tickets the caller may see that match the
   * filters, most recently updated first, with the clamped page and size,
   * the number of matching tickets and the number of pages.
   */
  function ListTickets(rows: seq<Ticket>, caller: AuthUser, query: ListQuery, fold: char -> char): (r: Listing)
    ensures r.page == PageNumber(query.page) && r.limit == PageSize(query.limit)
    ensures r.page >= 1 && (query.page.Some? && query.page.value >= 1 ==> r.page == query.page.value)
    ensures MinLimit <= r.limit <= MaxLimit && (query.limit.None? ==> r.limit == DefaultLimit)
    ensures (r.totalPages - 1) * r.limit < r.total <= r.totalPages * r.limit
    ensures r.total == |Filter(rows, caller, query, fold)|
    ensures r.items == Window(SortNewestFirst(Filter(rows, caller, query, fold)), Skip(r.page, r.limit), r.limit)
    ensures |r.items| == (if Skip(r.page, r.limit) < r.total then Min(r.limit, r.total - Skip(r.page, r.limit)) else 0)
    ensures |r.items| > 0 <==> r.page <= r.totalPages
    ensures forall t :: t in r.items ==> t in rows && Matches(caller, query, fold, t)
    ensures caller.role == REQUESTER ==> forall t :: t in r.items ==> t.requesterId == caller.id
    ensures NewestFirst(r.items)
  {
    var page := PageNumber(query.page);
    var limit := PageSize(query.limit);
    var skip := Skip(page, limit);
    var matching := Filter(rows, caller, query, fold);
    var sorted := SortNewestFirst(matching);
    var items := Window(sorted, skip, limit);
    var total := |matching|;
    PageNonEmpty(page, limit, total);
    PageOfSorted(matching, skip, limit);
    Listing(items, page, limit, total, TotalPages(total, limit))
  }

  /** A later page starts at or after the end of an earlier one. */
  lemma SkipGrows(p: int, q: int, limit: int)
    requires 1 <= p < q && limit >= 1
    ensures Skip(p, limit) + limit <= Skip(q, limit)
  {
    MulMonotone(p, q - 1, limit);
    assert (p - 1) * limit + limit == p * limit;
  }

  /** Of two windows on a newest-first list, the earlier one holds the newer tickets. */
  lemma WindowsInOrder(sorted: seq<Ticket>, skip1: nat, skip2: nat, limit: nat, i: nat, j: nat)
    requires NewestFirst(sorted)
    requires skip1 + limit <= skip2
    requires i < |Window(sorted, skip1, limit)| && j < |Window(sorted, skip2, limit)|
    ensures Window(sorted, skip1, limit)[i].updatedAt >= Window(sorted, skip2, limit)[j].updatedAt
  {
    assert Window(sorted, skip1, limit)[i] == sorted[skip1 + i];
    assert Window(sorted, skip2, limit)[j] == sorted[skip2 + j];
  }

  /**
   * Pages follow one order: every ticket on an earlier page was updated no
   * earlier than every ticket on a later page of the same query.
   */
  lemma {:induction false} EarlierPagesNewer(rows: seq<Ticket>, caller: AuthUser, query: ListQuery, fold: char -> char,
                                             p: int, q: int, i: nat, j: nat)
    requires 1 <= p < q
    ensures i < |ListTickets(rows, caller, query.(page := Some(p)), fold).items|
         && j < |ListTickets(rows, caller, query.(page := Some(q)), fold).items|
         ==> ListTickets(rows, caller, query.(page := Some(p)), fold).items[i].updatedAt
             >= ListTickets(rows, caller, query.(page := Some(q)), fold).items[j].updatedAt
  {
    var qp, qq := query.(page := Some(p)), query.(page := Some(q));
    var early, late := ListTickets(rows, caller, qp, fold), ListTickets(rows, caller, qq, fold);
    if i >= |early.items| || j >= |late.items| {
      return;
    }
    FilterIgnoresPaging(rows, caller, qp, fold);
    FilterIgnoresPaging(rows, caller, qq, fold);
    assert qp.(page := None, limit := None) == qq.(page := None, limit := None);
    var sorted := SortNewestFirst(Filter(rows, caller, qp, fold));
    var limit := PageSize(query.limit);
    assert early.items == Window(sorted, Skip(p, limit), limit);
    assert late.items == Window(sorted, Skip(q, limit), limit);
    SkipGrows(p, q, limit);
    WindowsInOrder(sorted, Skip(p, limit), Skip(q, limit), limit, i, j);
  }

  /** With no filters, an agent or admin is told the size of the whole ticket table. */
  lemma StaffTotalIsEverything(rows: seq<Ticket>, caller: AuthUser, page: Option<int>, limit: Option<int>, fold: char -> char)
    requires caller.role != REQUESTER
    ensures ListTickets(rows, caller, ListQuery(page, limit, "", "", "", ""), fold).total == |rows|
  {
    StaffFilterKeepsAll(rows, caller, fold);
    FilterIgnoresPaging(rows, caller, ListQuery(page, limit, "", "", "", ""), fold);
  }

  /** The paging parameters play no part in which tickets match. */
  lemma {:induction false} FilterIgnoresPaging(rows: seq<Ticket>, caller: AuthUser, query: ListQuery, fold: char -> char)
    ensures Filter(rows, caller, query, fold) == Filter(rows, caller, query.(page := None, limit := None), fold)
  {
    if rows != [] {
      FilterIgnoresPaging(rows[1..], caller, query, fold);
    }
  }

  /**
   * The ticket updated last heads the first page of an agent's or admin's
   * unfiltered list.
   */
  lemma LatestUpdateListedFirst(rows: seq<Ticket>, caller: AuthUser, page: Option<int>, limit: Option<int>, fold: char -> char, k: nat)
    requires caller.role != REQUESTER
    requires page.None? || page.value <= 1
    requires k < |rows|
    requires forall j :: 0 <= j < |rows| && j != k ==> rows[j].updatedAt < rows[k].updatedAt
    ensures ListTickets(rows, caller, ListQuery(page, limit, "", "", "", ""), fold).items != []
    ensures ListTickets(rows, caller, ListQuery(page, limit, "", "", "", ""), fold).items[0] == rows[k]
  {
    var query := ListQuery(page, limit, "", "", "", "");
    StaffFilterKeepsAll(rows, caller, fold);
    FilterIgnoresPaging(rows, caller, query, fold);
    var sorted := SortNewestFirst(rows);
    assert rows[k] in multiset(sorted);
    var first := sorted[0];
    assert first in multiset(rows);
    var j :| 0 <= j < |rows| && rows[j] == first;
  }
}
