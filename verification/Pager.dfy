/**
  The bounded pager: it walks `page`/`size` until the rows held reach the announced total, and
  resizes once, upward, when the first probe shows that one page is not enough.

  The server is an arbitrary function of the request number, the page and the size, so that it may
  answer the same page differently at two times. Rows are identified with their representation, so
  a page's fingerprint (the sorted representations of its rows) is the multiset of its rows.
*/
module Pager {
  import opened Wrappers

  datatype Budget = Budget(maxPages: nat, maxRows: nat, pageSize: nat, pageSizeCeiling: nat)

  /** A response either fails envelope validation or carries rows and a total. */
  datatype Response<T> = Malformed | Page(items: seq<T>, total: int)

  type Server<!T> = (nat, nat, nat) -> Response<T>

  datatype Reason = PageBudgetExhausted | RowBudgetExhausted | RowOverflow | TotalDrift | DuplicatePage | MissingPages

  datatype Paged<T> = Paged(items: seq<T>, total: int, pagesFetched: int, complete: bool, reason: Option<Reason>)

  /** How the fetch ended: an upstream error, or a paged result. */
  datatype Verdict<T> = UpstreamInvalid | Fetched(paged: Paged<T>)

  /** The last walk: whether it followed a resize, its page size, and how many pages it requested. */
  datatype Walk = Walk(resized: bool, size: nat, pages: nat) {
    function First(): nat { if resized then 1 else 0 }

    function Requests(): nat { First() + pages }
  }

  datatype Outcome<T> = Outcome(walk: Walk, verdict: Verdict<T>)

  datatype State<T(==)> = State(
    items: seq<T>, seen: set<multiset<T>>, expected: Option<int>, page: nat, size: nat, resized: bool)

  datatype Next<T(==)> = Stop(outcome: Outcome<T>) | Continue(state: State<T>)

  function Min(a: int, b: int): int { if a < b then a else b }

  function TotalOr<T>(expected: Option<int>, items: seq<T>): int {
    if expected.Some? && expected.value != 0 then expected.value else |items|
  }

  function Give<T>(s: State<T>, requested: nat, verdict: Verdict<T>): Next<T> {
    Stop(Outcome(Walk(s.resized, s.size, requested), verdict))
  }

  function Incomplete<T>(s: State<T>, items: seq<T>, total: int, requested: nat, reason: Reason): Next<T> {
    Give(s, requested, Fetched(Paged(items, total, requested, false, Some(reason))))
  }

  function Complete<T>(s: State<T>, items: seq<T>, total: int): Next<T> {
    Give(s, s.page, Fetched(Paged(items, total, s.page, true, None)))
  }

  function Sent<T>(s: State<T>): nat
    requires s.page >= 1
  {
    (if s.resized then 1 else 0) + s.page - 1
  }

  /** One turn of the loop. */
  function Step<T(==)>(server: Server<T>, budget: Budget, s: State<T>): Next<T>
    requires s.page >= 1
  {
    if s.page > budget.maxPages then
      Incomplete(s, s.items, TotalOr(s.expected, s.items), s.page - 1, PageBudgetExhausted)
    else if |s.items| >= budget.maxRows then
      Incomplete(s, s.items[..budget.maxRows], TotalOr(s.expected, s.items), s.page - 1, RowBudgetExhausted)
    else
      match server(Sent(s), s.page, s.size)
      case Malformed => Give(s, s.page, UpstreamInvalid)
      case Page(rows, total) =>
        if total < 0 then Give(s, s.page, UpstreamInvalid)
        else if s.expected.None? then Probe(budget, s, rows, total)
        else if s.expected.value != total then Incomplete(s, s.items, total, s.page, TotalDrift)
        else Append(budget, s, rows, total)
  }

  /** The first response fixes the total, may finish the fetch, and may restart it at the ceiling. */
  function Probe<T(==)>(budget: Budget, s: State<T>, rows: seq<T>, total: nat): Next<T> {
    if |rows| > total then Incomplete(s, rows[..Min(total, budget.maxRows)], total, s.page, RowOverflow)
    else if |rows| > budget.maxRows then Incomplete(s, rows[..budget.maxRows], total, s.page, RowBudgetExhausted)
    else if |rows| == total then Complete(s, s.items + rows, total)
    else if !s.resized && total > s.size && budget.pageSizeCeiling > s.size then
      Continue(State([], {}, Some(total), 1, budget.pageSizeCeiling, true))
    else Append(budget, s.(expected := Some(total)), rows, total)
  }

  function Append<T(==)>(budget: Budget, s: State<T>, rows: seq<T>, total: nat): Next<T> {
    var fingerprint := multiset(rows);
    if rows != [] && fingerprint in s.seen then Incomplete(s, s.items, total, s.page, DuplicatePage)
    else
      var seen := if rows != [] then s.seen + {fingerprint} else s.seen;
      var items := s.items + rows;
      if |items| > total then Incomplete(s, items[..Min(total, budget.maxRows)], total, s.page, RowOverflow)
      else if |items| > budget.maxRows then Incomplete(s, items[..budget.maxRows], total, s.page, RowBudgetExhausted)
      else if |items| == total then Complete(s, items, total)
      else if rows == [] then Incomplete(s, items, total, s.page, MissingPages)
      else Continue(s.(items := items, seen := seen, page := s.page + 1))
  }

  function Start<T(==)>(budget: Budget): State<T> {
    State([], {}, None, 1, budget.pageSize, false)
  }

  function Phase<T>(s: State<T>): nat { if s.expected.None? then 1 else 0 }

  function Run<T(==)>(server: Server<T>, budget: Budget, s: State<T>): Outcome<T>
    requires s.page >= 1
    decreases Phase(s), budget.maxPages + 1 - s.page
  {
    match Step(server, budget, s)
    case Stop(outcome) => outcome
    case Continue(next) => Run(server, budget, next)
  }

  /** The loop itself, with the variables the source keeps. */
  method FetchAll<T(==)>(server: Server<T>, budget: Budget) returns (outcome: Outcome<T>)
    ensures outcome == Run(server, budget, Start(budget))
  {
    var items: seq<T>, seen: set<multiset<T>>, expected: Option<int> := [], {}, None;
    var page, size, resized := 1, budget.pageSize, false;
    var requests := 0;
    while true
      invariant page >= 1 && requests == (if resized then 1 else 0) + page - 1
      invariant Run(server, budget, State(items, seen, expected, page, size, resized)) ==
                Run(server, budget, Start(budget))
      decreases if expected.None? then 1 else 0, budget.maxPages + 1 - page
    {
      if page > budget.maxPages {
        return Outcome(Walk(resized, size, page - 1),
                       Fetched(Paged(items, TotalOr(expected, items), page - 1, false, Some(PageBudgetExhausted))));
      }
      if |items| >= budget.maxRows {
        return Outcome(Walk(resized, size, page - 1),
                       Fetched(Paged(items[..budget.maxRows], TotalOr(expected, items), page - 1, false,
                                     Some(RowBudgetExhausted))));
      }
      var response := server(requests, page, size);
      requests := requests + 1;
      if response.Malformed? || response.total < 0 {
        return Outcome(Walk(resized, size, page), UpstreamInvalid);
      }
      var rows, total := response.items, response.total;
      if expected.None? {
        expected := Some(total);
        if |rows| > total {
          return Outcome(Walk(resized, size, page),
                         Fetched(Paged(rows[..Min(total, budget.maxRows)], total, page, false, Some(RowOverflow))));
        }
        if |rows| > budget.maxRows {
          return Outcome(Walk(resized, size, page),
                         Fetched(Paged(rows[..budget.maxRows], total, page, false, Some(RowBudgetExhausted))));
        }
        if |rows| == total {
          items := items + rows;
          return Outcome(Walk(resized, size, page), Fetched(Paged(items, total, page, true, None)));
        }
        if !resized && total > size && budget.pageSizeCeiling > size {
          size, resized := budget.pageSizeCeiling, true;
          items, seen, page, requests := [], {}, 1, 1;
          continue;
        }
      } else if expected.value != total {
        return Outcome(Walk(resized, size, page), Fetched(Paged(items, total, page, false, Some(TotalDrift))));
      }
      var fingerprint := multiset(rows);
      if rows != [] && fingerprint in seen {
        return Outcome(Walk(resized, size, page), Fetched(Paged(items, total, page, false, Some(DuplicatePage))));
      }
      if rows != [] {
        seen := seen + {fingerprint};
      }
      items := items + rows;
      if |items| > total {
        return Outcome(Walk(resized, size, page),
                       Fetched(Paged(items[..Min(total, budget.maxRows)], total, page, false, Some(RowOverflow))));
      }
      if |items| > budget.maxRows {
        return Outcome(Walk(resized, size, page),
                       Fetched(Paged(items[..budget.maxRows], total, page, false, Some(RowBudgetExhausted))));
      }
      if |items| == total {
        return Outcome(Walk(resized, size, page), Fetched(Paged(items, total, page, true, None)));
      }
      if rows == [] {
        return Outcome(Walk(resized, size, page), Fetched(Paged(items, total, page, false, Some(MissingPages))));
      }
      page := page + 1;
    }
  }

  // ---------------------------------------------------------------- soundness for every server

  /** The response to page `p` of a walk whose first request has number `first`. */
  function Answer<T>(server: Server<T>, first: nat, size: nat, p: nat): Response<T>
    requires p >= 1
  {
    server(first + p - 1, p, size)
  }

  function RowsOf<T>(response: Response<T>): seq<T> {
    if response.Page? then response.items else []
  }

  /** The rows of the first `n` pages of a walk, in order. */
  function Walked<T>(server: Server<T>, first: nat, size: nat, n: nat): seq<T> {
    if n == 0 then [] else Walked(server, first, size, n - 1) + RowsOf(Answer(server, first, size, n))
  }

  ghost predicate Agreed<T>(server: Server<T>, first: nat, size: nat, n: nat, total: int) {
    forall p :: 1 <= p <= n ==> Answer(server, first, size, p).Page? && Answer(server, first, size, p).total == total
  }

  /** No two of the first `n` pages hold the same rows. */
  ghost predicate DistinctPages<T>(server: Server<T>, first: nat, size: nat, n: nat) {
    forall p, q :: 1 <= p < q <= n ==> Fingerprint(server, first, size, p) != Fingerprint(server, first, size, q)
  }

  function Fingerprint<T>(server: Server<T>, first: nat, size: nat, p: nat): multiset<T>
    requires p >= 1
  {
    multiset(RowsOf(Answer(server, first, size, p)))
  }

  ghost function Fingerprints<T>(server: Server<T>, first: nat, size: nat, n: nat): set<multiset<T>> {
    set p: nat | 1 <= p <= n :: Fingerprint(server, first, size, p)
  }

  ghost predicate Nonempty<T>(server: Server<T>, first: nat, size: nat, n: nat) {
    forall p :: 1 <= p <= n ==> RowsOf(Answer(server, first, size, p)) != []
  }

  /** The first `n` pages are nonempty and pairwise different, and `seen` holds their fingerprints. */
  ghost predicate Clean<T>(server: Server<T>, first: nat, size: nat, n: nat, seen: set<multiset<T>>) {
    && Nonempty(server, first, size, n)
    && DistinctPages(server, first, size, n)
    && seen == Fingerprints(server, first, size, n)
  }

  /** What the loop keeps between turns. */
  ghost predicate Good<T>(server: Server<T>, budget: Budget, s: State<T>) {
    var first := if s.resized then 1 else 0;
    && 1 <= s.page <= budget.maxPages + 1
    && s.size == (if s.resized then budget.pageSizeCeiling else budget.pageSize)
    && (s.resized ==> Resizes(server, budget))
    && s.items == Walked(server, first, s.size, s.page - 1)
    && (s.page > 1 ==> s.expected.Some? && |s.items| < s.expected.value && |s.items| <= budget.maxRows)
    && (s.resized ==> s.expected.Some?)
    && (s.expected.Some? && !s.resized ==> !Resizes(server, budget))
    && (s.expected.Some? ==>
          && s.expected.value > 0 && budget.maxPages >= 1 && budget.maxRows >= 1
          && Answer(server, 0, budget.pageSize, 1).Page?
          && Answer(server, 0, budget.pageSize, 1).total == s.expected.value
          && Agreed(server, first, s.size, s.page - 1, s.expected.value))
    && Clean(server, first, s.size, s.page - 1, s.seen)
  }

  /** The probe announces more rows than it was asked for and returned, and the ceiling is larger. */
  ghost predicate Resizes<T>(server: Server<T>, budget: Budget) {
    var probe := Answer(server, 0, budget.pageSize, 1);
    && probe.Page? && probe.total > budget.pageSize && |probe.items| < probe.total
    && budget.pageSizeCeiling > budget.pageSize
  }

  ghost predicate Explained<T>(server: Server<T>, budget: Budget, walk: Walk, r: Paged<T>, reason: Reason) {
    var walked := Walked(server, walk.First(), walk.size, walk.pages);
    match reason
    case PageBudgetExhausted =>
      walk.pages == budget.maxPages && r.items == walked && (walk.pages > 0 ==> |r.items| < r.total)
    case RowBudgetExhausted => |r.items| == budget.maxRows && (budget.maxRows > 0 ==> r.total > budget.maxRows)
    case RowOverflow => |walked| > r.total && |r.items| == Min(r.total, budget.maxRows)
    case TotalDrift =>
      && walk.pages >= 1 && Answer(server, walk.First(), walk.size, walk.pages).Page?
      && Answer(server, walk.First(), walk.size, walk.pages).total == r.total
      && Answer(server, 0, budget.pageSize, 1).Page?
      && Answer(server, 0, budget.pageSize, 1).total != r.total
    case DuplicatePage =>
      && walk.pages >= 1 && RowsOf(Answer(server, walk.First(), walk.size, walk.pages)) != []
      && exists p :: 1 <= p < walk.pages &&
           Fingerprint(server, walk.First(), walk.size, p) == Fingerprint(server, walk.First(), walk.size, walk.pages)
    case MissingPages =>
      && walk.pages >= 1 && RowsOf(Answer(server, walk.First(), walk.size, walk.pages)) == []
      && r.items == walked && |r.items| < r.total
  }

  /** What every result is, whatever the server answers. */
  ghost predicate Sound<T>(server: Server<T>, budget: Budget, o: Outcome<T>) {
    var walk := o.walk;
    && walk.pages <= budget.maxPages
    && walk.size == (if walk.resized then budget.pageSizeCeiling else budget.pageSize)
    && (walk.resized ==> Resizes(server, budget))
    && match o.verdict
       case UpstreamInvalid =>
         walk.pages >= 1 && var last := Answer(server, walk.First(), walk.size, walk.pages);
         last.Malformed? || last.total < 0
       case Fetched(r) =>
         && r.pagesFetched == walk.pages && |r.items| <= budget.maxRows
         && r.items <= Walked(server, walk.First(), walk.size, walk.pages)
         && (r.complete <==> r.reason.None?)
         && (walk.Requests() >= 1 && r.reason != Some(TotalDrift) ==>
               Answer(server, 0, budget.pageSize, 1).Page? && Answer(server, 0, budget.pageSize, 1).total == r.total)
         && (walk.Requests() >= 1 && !walk.resized && Resizes(server, budget) ==> r.reason == Some(RowBudgetExhausted))
         && (r.complete ==> Proven(server, budget, walk, r))
         && (r.reason.Some? ==> Explained(server, budget, walk, r, r.reason.value))
  }

  /** A complete result is one whole walk: every page counted, none repeated, totals agreeing. */
  ghost predicate Proven<T>(server: Server<T>, budget: Budget, walk: Walk, r: Paged<T>) {
    && walk.pages >= 1 && budget.maxRows >= 1
    && r.items == Walked(server, walk.First(), walk.size, walk.pages)
    && |r.items| == r.total
    && Agreed(server, walk.First(), walk.size, walk.pages, r.total)
    && DistinctPages(server, walk.First(), walk.size, walk.pages)
  }

  lemma FingerprintsGrow<T>(server: Server<T>, first: nat, size: nat, n: nat)
    ensures Fingerprints(server, first, size, n + 1) ==
            Fingerprints(server, first, size, n) + {Fingerprint(server, first, size, n + 1)}
  {
  }

  lemma DistinctGrows<T>(server: Server<T>, first: nat, size: nat, n: nat)
    requires Nonempty(server, first, size, n) && DistinctPages(server, first, size, n)
    requires var rows := RowsOf(Answer(server, first, size, n + 1));
             rows == [] || Fingerprint(server, first, size, n + 1) !in Fingerprints(server, first, size, n)
    ensures DistinctPages(server, first, size, n + 1)
  {
    forall p: nat | 1 <= p <= n
      ensures Fingerprint(server, first, size, p) != Fingerprint(server, first, size, n + 1)
    {
      assert Fingerprint(server, first, size, p) in Fingerprints(server, first, size, n);
      assert |Fingerprint(server, first, size, p)| > 0;
    }
  }

  lemma CleanGrows<T>(server: Server<T>, first: nat, size: nat, n: nat, seen: set<multiset<T>>, rows: seq<T>)
    requires Clean(server, first, size, n, seen)
    requires RowsOf(Answer(server, first, size, n + 1)) == rows && rows != [] && multiset(rows) !in seen
    ensures Clean(server, first, size, n + 1, seen + {multiset(rows)})
  {
    DistinctGrows(server, first, size, n);
    FingerprintsGrow(server, first, size, n);
  }

  lemma AppendKeeps<T(!new)>(server: Server<T>, budget: Budget, s: State<T>, rows: seq<T>, total: nat)
    requires Good(server, budget, s) && s.page <= budget.maxPages && |s.items| < budget.maxRows
    requires s.expected == Some(total) && (!s.resized ==> !Resizes(server, budget))
    requires server(Sent(s), s.page, s.size) == Page(rows, total)
    requires Append(budget, s, rows, total).Continue?
    ensures Good(server, budget, Append(budget, s, rows, total).state)
  {
    var first := if s.resized then 1 else 0;
    assert Answer(server, first, s.size, s.page) == Page(rows, total);
    CleanGrows(server, first, s.size, s.page - 1, s.seen, rows);
    assert Agreed(server, first, s.size, s.page, total);
    assert Walked(server, first, s.size, s.page) == s.items + rows;
  }

  /** The page that completes the walk. */
  lemma AppendCompletes<T(!new)>(server: Server<T>, budget: Budget, s: State<T>, rows: seq<T>, total: nat)
    requires Good(server, budget, s) && s.page <= budget.maxPages && |s.items| < budget.maxRows
    requires s.expected == Some(total) && server(Sent(s), s.page, s.size) == Page(rows, total)
    requires |s.items + rows| == total && (rows == [] || multiset(rows) !in s.seen)
    ensures var first := if s.resized then 1 else 0;
            Agreed(server, first, s.size, s.page, total) && DistinctPages(server, first, s.size, s.page)
  {
    var first := if s.resized then 1 else 0;
    assert Answer(server, first, s.size, s.page) == Page(rows, total);
    DistinctGrows(server, first, s.size, s.page - 1);
  }

  /** What is known of the walk when a page of it is appended. */
  lemma AppendWalks<T(!new)>(server: Server<T>, budget: Budget, s: State<T>, rows: seq<T>, total: nat)
    requires Good(server, budget, s) && server(Sent(s), s.page, s.size) == Page(rows, total)
    ensures var first := if s.resized then 1 else 0;
            && Answer(server, first, s.size, s.page) == Page(rows, total)
            && Walked(server, first, s.size, s.page) == s.items + rows
  {
  }

  lemma AppendEnds<T(!new)>(server: Server<T>, budget: Budget, s: State<T>, rows: seq<T>, total: nat)
    requires Good(server, budget, s) && s.page <= budget.maxPages && |s.items| < budget.maxRows
    requires s.expected == Some(total) && (!s.resized ==> !Resizes(server, budget))
    requires server(Sent(s), s.page, s.size) == Page(rows, total) && |s.items + rows| <= budget.maxRows
    requires |s.items + rows| == total && (rows == [] || multiset(rows) !in s.seen)
    ensures Sound(server, budget, Complete(s, s.items + rows, total).outcome)
  {
    AppendWalks(server, budget, s, rows, total);
    AppendCompletes(server, budget, s, rows, total);
  }

  lemma AppendStops<T(!new)>(server: Server<T>, budget: Budget, s: State<T>, rows: seq<T>, total: nat)
    requires Good(server, budget, s) && s.page <= budget.maxPages && |s.items| < budget.maxRows
    requires s.expected == Some(total) && (!s.resized ==> !Resizes(server, budget))
    requires server(Sent(s), s.page, s.size) == Page(rows, total)
    requires Append(budget, s, rows, total).Stop? && (rows == [] || multiset(rows) !in s.seen)
    ensures Sound(server, budget, Append(budget, s, rows, total).outcome)
  {
    AppendWalks(server, budget, s, rows, total);
    if |s.items + rows| == total && total <= budget.maxRows {
      AppendEnds(server, budget, s, rows, total);
    }
  }

  lemma AppendSound<T(!new)>(server: Server<T>, budget: Budget, s: State<T>, rows: seq<T>, total: nat)
    requires Good(server, budget, s) && s.page <= budget.maxPages && |s.items| < budget.maxRows
    requires s.expected == Some(total) && (!s.resized ==> !Resizes(server, budget))
    requires server(Sent(s), s.page, s.size) == Page(rows, total)
    ensures match Append(budget, s, rows, total)
            case Stop(o) => Sound(server, budget, o)
            case Continue(next) => Good(server, budget, next)
  {
    if rows != [] && multiset(rows) in s.seen {
      DuplicateSound(server, budget, s, rows, total);
    } else if Append(budget, s, rows, total).Stop? {
      AppendStops(server, budget, s, rows, total);
    } else {
      AppendKeeps(server, budget, s, rows, total);
    }
  }

  lemma DuplicateSound<T(!new)>(server: Server<T>, budget: Budget, s: State<T>, rows: seq<T>, total: nat)
    requires Good(server, budget, s) && s.page <= budget.maxPages && |s.items| < budget.maxRows
    requires server(Sent(s), s.page, s.size) == Page(rows, total)
    requires rows != [] && multiset(rows) in s.seen && s.expected == Some(total)
    ensures Sound(server, budget, Incomplete(s, s.items, total, s.page, DuplicatePage).outcome)
  {
    var first := if s.resized then 1 else 0;
    assert Answer(server, first, s.size, s.page) == Page(rows, total);
    assert Walked(server, first, s.size, s.page) == s.items + rows;
    var p: nat :| 1 <= p <= s.page - 1 && multiset(rows) == Fingerprint(server, first, s.size, p);
  }

  lemma ProbeSound<T(!new)>(server: Server<T>, budget: Budget, s: State<T>, rows: seq<T>, total: nat)
    requires Good(server, budget, s) && s.page <= budget.maxPages && |s.items| < budget.maxRows
    requires s.expected.None?
    requires server(Sent(s), s.page, s.size) == Page(rows, total)
    ensures match Probe(budget, s, rows, total)
            case Stop(o) => Sound(server, budget, o)
            case Continue(next) => Good(server, budget, next)
  {
    assert s.page == 1 && !s.resized;
    assert Answer(server, 0, s.size, 1) == Page(rows, total);
    assert Walked(server, 0, s.size, 0) == [];
    assert Walked(server, 0, s.size, 1) == rows;
    if |rows| > total || |rows| > budget.maxRows || |rows| == total {
    } else if total > s.size && budget.pageSizeCeiling > s.size {
      assert Fingerprints(server, 1, budget.pageSizeCeiling, 0) == {};
    } else {
      AppendSound(server, budget, s.(expected := Some(total)), rows, total);
    }
  }

  /** A turn that ends before its page is looked at. */
  lemma BudgetSound<T(!new)>(server: Server<T>, budget: Budget, s: State<T>)
    requires Good(server, budget, s) && (s.page > budget.maxPages || |s.items| >= budget.maxRows)
    ensures Step(server, budget, s).Stop? && Sound(server, budget, Step(server, budget, s).outcome)
  {
  }

  lemma InvalidSound<T(!new)>(server: Server<T>, budget: Budget, s: State<T>)
    requires Good(server, budget, s) && s.page <= budget.maxPages && |s.items| < budget.maxRows
    requires var answer := server(Sent(s), s.page, s.size); answer.Malformed? || answer.total < 0
    ensures Step(server, budget, s).Stop? && Sound(server, budget, Step(server, budget, s).outcome)
  {
    assert Answer(server, if s.resized then 1 else 0, s.size, s.page) == server(Sent(s), s.page, s.size);
  }

  lemma DriftSound<T(!new)>(server: Server<T>, budget: Budget, s: State<T>, rows: seq<T>, total: nat)
    requires Good(server, budget, s) && s.page <= budget.maxPages && |s.items| < budget.maxRows
    requires server(Sent(s), s.page, s.size) == Page(rows, total) && s.expected.Some? && s.expected.value != total
    ensures Sound(server, budget, Incomplete(s, s.items, total, s.page, TotalDrift).outcome)
  {
    AppendWalks(server, budget, s, rows, total);
  }

  lemma StepSound<T(!new)>(server: Server<T>, budget: Budget, s: State<T>)
    requires Good(server, budget, s)
    ensures match Step(server, budget, s)
            case Stop(o) => Sound(server, budget, o)
            case Continue(next) => Good(server, budget, next)
  {
    if s.page > budget.maxPages || |s.items| >= budget.maxRows {
      BudgetSound(server, budget, s);
    } else {
      match server(Sent(s), s.page, s.size)
      case Malformed => InvalidSound(server, budget, s);
      case Page(rows, total) =>
        if total < 0 {
          InvalidSound(server, budget, s);
        } else if s.expected.None? {
          ProbeSound(server, budget, s, rows, total);
        } else if s.expected.value == total {
          AppendSound(server, budget, s, rows, total);
        } else {
          DriftSound(server, budget, s, rows, total);
        }
    }
  }

  lemma {:induction false} RunSound<T(!new)>(server: Server<T>, budget: Budget, s: State<T>)
    requires Good(server, budget, s)
    ensures Sound(server, budget, Run(server, budget, s))
    decreases Phase(s), budget.maxPages + 1 - s.page
  {
    StepSound(server, budget, s);
    match Step(server, budget, s)
    case Stop(_) =>
    case Continue(next) => RunSound(server, budget, next);
  }

  /** Soundness against any server, however inconsistent. */
  lemma FetchSound<T(!new)>(server: Server<T>, budget: Budget)
    ensures var o := Run(server, budget, Start(budget));
            Sound(server, budget, o) && o.walk.Requests() <= budget.maxPages + 1
  {
    assert Fingerprints(server, 0, budget.pageSize, 0) == {};
    RunSound(server, budget, Start(budget));
  }

  // ---------------------------------------------------------------- coverage of a fixed list

  /**
    A complete result holds as many rows as the list it was drawn from. It is the whole list, each
    row as often as the list has it, if and only if no row came back more often than the list has it.
  */
  lemma CompleteCovers<T(!new)>(server: Server<T>, budget: Budget, list: seq<T>)
    requires var v := Run(server, budget, Start(budget)).verdict;
             v.Fetched? && v.paged.complete && v.paged.total == |list|
    ensures var items := Run(server, budget, Start(budget)).verdict.paged.items;
            multiset(items) == multiset(list) <==> multiset(items) <= multiset(list)
  {
    FetchSound(server, budget);
    var items := Run(server, budget, Start(budget)).verdict.paged.items;
    if multiset(items) <= multiset(list) {
      var rest := multiset(list) - multiset(items);
      assert multiset(list) == multiset(items) + rest;
      assert |rest| == |multiset(list)| - |multiset(items)| == 0;
    }
  }

  /** The walk draws its pages from the list without taking a row twice. */
  ghost predicate Draws<T>(server: Server<T>, walk: Walk, list: seq<T>) {
    forall n :: 0 <= n <= walk.pages ==> multiset(Walked(server, walk.First(), walk.size, n)) <= multiset(list)
  }

  /** Pages drawn without replacement from a list of the announced size are the whole list. */
  lemma DisjointPagesCover<T(!new)>(server: Server<T>, budget: Budget, list: seq<T>)
    requires Draws(server, Run(server, budget, Start(budget)).walk, list)
    requires var v := Run(server, budget, Start(budget)).verdict;
             v.Fetched? && v.paged.complete && v.paged.total == |list|
    ensures multiset(Run(server, budget, Start(budget)).verdict.paged.items) == multiset(list)
  {
    FetchSound(server, budget);
    var o := Run(server, budget, Start(budget));
    assert o.verdict.paged.items == Walked(server, o.walk.First(), o.walk.size, o.walk.pages);
    CompleteCovers(server, budget, list);
  }

  /** A list into which a row arrives at the head, and from which one leaves at the tail, between the two requests. */
  function ShiftedServer(): Server<int> {
    (request, page, size) => if page == 1 then Page([1, 2], 4) else Page([2, 3], 4)
  }

  /**
    Exact counts alone do not prove coverage: pages of a list that shifts under the pager pass
    every test, and the result claims completeness with a row twice and a row missing.
  */
  lemma CompleteMayMissRows()
    ensures var v := Run(ShiftedServer(), ShiftBudget(), Start(ShiftBudget())).verdict;
            v.Fetched? && v.paged.complete && v.paged.items == [1, 2, 2, 3]
  {
    var server, budget := ShiftedServer(), ShiftBudget();
    var first := Start<int>(budget);
    var second := State([1, 2], {multiset{1, 2}}, Some(4), 2, 2, false);
    FirstShift(first, second);
    SecondShift(second);
    assert Run(server, budget, first) == Run(server, budget, second);
  }

  function ShiftBudget(): Budget { Budget(20, 250000, 2, 2) }

  lemma FirstShift(first: State<int>, second: State<int>)
    requires first == Start(ShiftBudget()) && second == State([1, 2], {multiset{1, 2}}, Some(4), 2, 2, false)
    ensures Step(ShiftedServer(), ShiftBudget(), first) == Continue(second)
  {
    var rows := [1, 2];
    assert ShiftedServer()(0, 1, 2) == Page(rows, 4);
    assert multiset(rows) == multiset{1, 2};
    assert first.items + rows == rows;
    assert first.seen + {multiset(rows)} == {multiset{1, 2}};
  }

  lemma SecondShift(second: State<int>)
    requires second == State([1, 2], {multiset{1, 2}}, Some(4), 2, 2, false)
    ensures Step(ShiftedServer(), ShiftBudget(), second) == Complete(second, [1, 2, 2, 3], 4)
  {
    var rows := [2, 3];
    assert ShiftedServer()(1, 2, 2) == Page(rows, 4);
    assert multiset(rows) == multiset{2, 3};
    assert multiset{2, 3}[1] == 0 && multiset{1, 2}[1] == 1;
    assert second.items + rows == [1, 2, 2, 3];
  }

  // ---------------------------------------------------------------- exactness on a sliced list

  /** How far into a list of this length the first `n` pages of a given size reach. */
  function Reach(n: nat, size: nat, length: nat): (r: nat)
    ensures r <= length
  {
    if n == 0 then 0 else Min(Reach(n - 1, size, length) + size, length)
  }

  lemma {:induction false} ReachIsProduct(n: nat, size: nat, length: nat)
    ensures Reach(n, size, length) == Min(n * size, length)
  {
    if n > 0 {
      ReachIsProduct(n - 1, size, length);
      assert n * size == (n - 1) * size + size;
    }
  }

  lemma {:induction false} ReachGrows(m: nat, n: nat, size: nat, length: nat)
    requires m <= n
    ensures Reach(m, size, length) <= Reach(n, size, length)
    decreases n
  {
    if m < n {
      ReachGrows(m, n - 1, size, length);
    }
  }

  function Slice<T>(list: seq<T>, page: nat, size: nat): seq<T>
    requires page >= 1
  {
    list[Reach(page - 1, size, |list|)..Reach(page, size, |list|)]
  }

  /** A server that slices one fixed list and always announces its length. */
  ghost predicate Slices<T>(server: Server<T>, list: seq<T>) {
    forall request, page, size :: page >= 1 ==> server(request, page, size) == Page(Slice(list, page, size), |list|)
  }

  /** The page size of the last walk over a list of this length. */
  function SettledSize(length: nat, budget: Budget): nat {
    if length > budget.pageSize && budget.pageSizeCeiling > budget.pageSize then budget.pageSizeCeiling
    else budget.pageSize
  }

  ghost predicate DistinctSlices<T>(list: seq<T>, size: nat) {
    forall p, q :: 1 <= p < q && Slice(list, q, size) != [] ==>
      multiset(Slice(list, p, size)) != multiset(Slice(list, q, size))
  }

  /** The list fits the budgets at the settled size, and no two of its pages hold the same rows. */
  ghost predicate Fetchable<T>(list: seq<T>, budget: Budget) {
    var size := SettledSize(|list|, budget);
    && budget.maxPages >= 1 && 1 <= budget.maxRows && |list| <= budget.maxRows
    && Reach(budget.maxPages, size, |list|) == |list|
    && DistinctSlices(list, size)
  }

  /** One walk of such a server, seen through its answers. */
  ghost predicate SlicedWalk<T>(server: Server<T>, list: seq<T>, first: nat, size: nat) {
    forall p :: p >= 1 ==> Answer(server, first, size, p) == Page(Slice(list, p, size), |list|)
  }

  lemma WalksAreSliced<T>(server: Server<T>, budget: Budget, list: seq<T>, first: nat, size: nat)
    requires Slices(server, list)
    ensures SlicedWalk(server, list, first, size) && SlicedWalk(server, list, 0, budget.pageSize)
    ensures Resizes(server, budget) <==> |list| > budget.pageSize && budget.pageSizeCeiling > budget.pageSize
  {
    assert Answer(server, 0, budget.pageSize, 1) == Page(Slice(list, 1, budget.pageSize), |list|);
    assert Reach(0, budget.pageSize, |list|) == 0;
  }

  lemma Rejoin<T>(list: seq<T>, a: nat, b: nat)
    requires a <= b <= |list|
    ensures list[..a] + list[a..b] == list[..b]
  {
  }

  lemma {:induction false} WalkedSlices<T>(server: Server<T>, list: seq<T>, first: nat, size: nat, n: nat)
    requires SlicedWalk(server, list, first, size)
    ensures Walked(server, first, size, n) == list[..Reach(n, size, |list|)]
  {
    if n > 0 {
      WalkedSlices(server, list, first, size, n - 1);
      assert RowsOf(Answer(server, first, size, n)) == Slice(list, n, size);
      ReachGrows(n - 1, n, size, |list|);
      Rejoin(list, Reach(n - 1, size, |list|), Reach(n, size, |list|));
    }
  }

  lemma {:induction false} ReachNowhere(n: nat, length: nat)
    ensures Reach(n, 0, length) == 0
  {
    if n > 0 {
      ReachNowhere(n - 1, length);
    }
  }

  /** Distinct slices are never taken for duplicates. */
  lemma NoDuplicate<T(!new)>(server: Server<T>, budget: Budget, list: seq<T>, walk: Walk, r: Paged<T>)
    requires SlicedWalk(server, list, walk.First(), walk.size) && DistinctSlices(list, walk.size)
    ensures !Explained(server, budget, walk, r, DuplicatePage)
  {
    var first, size := walk.First(), walk.size;
    forall p | 1 <= p < walk.pages && Slice(list, walk.pages, size) != []
      ensures Fingerprint(server, first, size, p) != Fingerprint(server, first, size, walk.pages)
    {
      assert Answer(server, first, size, p).items == Slice(list, p, size);
      assert Answer(server, first, size, walk.pages).items == Slice(list, walk.pages, size);
    }
  }

  lemma ReachStalls(n: nat, size: nat, length: nat)
    requires n >= 1 && Reach(n, size, length) == Reach(n - 1, size, length)
    ensures size == 0 || Reach(n, size, length) == length
  {
  }

  /** A page after which rows are still missing is not empty. */
  lemma SliceNotEmpty<T>(list: seq<T>, n: nat, size: nat, maxPages: nat)
    requires n >= 1 && Reach(n, size, |list|) < |list| && Reach(maxPages, size, |list|) == |list|
    ensures Slice(list, n, size) != []
  {
    ReachNowhere(maxPages, |list|);
    ReachGrows(n - 1, n, size, |list|);
    if Reach(n, size, |list|) == Reach(n - 1, size, |list|) {
      ReachStalls(n, size, |list|);
    }
  }

  lemma NoMissing<T(!new)>(server: Server<T>, budget: Budget, list: seq<T>, walk: Walk, r: Paged<T>)
    requires SlicedWalk(server, list, walk.First(), walk.size)
    requires Reach(budget.maxPages, walk.size, |list|) == |list| == r.total
    ensures !Explained(server, budget, walk, r, MissingPages)
  {
    if walk.pages >= 1 {
      WalkedSlices(server, list, walk.First(), walk.size, walk.pages);
      assert Answer(server, walk.First(), walk.size, walk.pages).items == Slice(list, walk.pages, walk.size);
      if Reach(walk.pages, walk.size, |list|) < |list| {
        SliceNotEmpty(list, walk.pages, walk.size, budget.maxPages);
      }
    }
  }

  /** No reason to stop short applies to a walk over a fetchable list at its settled size. */
  lemma NothingStopsShort<T(!new)>(server: Server<T>, budget: Budget, list: seq<T>, walk: Walk, r: Paged<T>,
                                   reason: Reason)
    requires SlicedWalk(server, list, 0, budget.pageSize) && SlicedWalk(server, list, walk.First(), walk.size)
    requires Fetchable(list, budget) && walk.size == SettledSize(|list|, budget)
    requires !reason.TotalDrift? ==> r.total == |list|
    requires walk.pages >= 1
    ensures !Explained(server, budget, walk, r, reason)
  {
    match reason
    case DuplicatePage => NoDuplicate(server, budget, list, walk, r);
    case MissingPages => NoMissing(server, budget, list, walk, r);
    case TotalDrift =>
      assert Answer(server, 0, budget.pageSize, 1).total == |list|;
      assert Answer(server, walk.First(), walk.size, walk.pages).total == |list|;
    case _ => WalkedSlices(server, list, walk.First(), walk.size, walk.pages);
  }

  lemma CompleteIsFetchable<T(!new)>(server: Server<T>, budget: Budget, list: seq<T>, walk: Walk, r: Paged<T>)
    requires SlicedWalk(server, list, walk.First(), walk.size)
    requires Proven(server, budget, walk, r) && r.total == |list| <= budget.maxRows
    requires walk.size == SettledSize(|list|, budget) && walk.pages <= budget.maxPages
    ensures r.items == list && Fetchable(list, budget)
  {
    var first, size := walk.First(), walk.size;
    WalkedSlices(server, list, first, size, walk.pages);
    ReachGrows(walk.pages, budget.maxPages, size, |list|);
    forall p, q | 1 <= p < q && Slice(list, q, size) != []
      ensures multiset(Slice(list, p, size)) != multiset(Slice(list, q, size))
    {
      if q > walk.pages {
        ReachGrows(walk.pages, q - 1, size, |list|);
      } else {
        assert Fingerprint(server, first, size, p) != Fingerprint(server, first, size, q);
        assert Answer(server, first, size, p).items == Slice(list, p, size);
        assert Answer(server, first, size, q).items == Slice(list, q, size);
      }
    }
  }

  /**
    Exactness: against a server that slices a fixed list, the fetch is complete exactly when the
    list is fetchable, and a complete fetch returns the list itself, in order, resize or not.
  */
  lemma FetchExact<T(!new)>(server: Server<T>, budget: Budget, list: seq<T>)
    requires Slices(server, list)
    ensures var v := Run(server, budget, Start(budget)).verdict;
            && v.Fetched?
            && (v.paged.complete <==> Fetchable(list, budget))
            && (v.paged.complete ==> v.paged.items == list && v.paged.total == |list|)
  {
    FetchSound(server, budget);
    var o := Run(server, budget, Start(budget));
    ExactOutcome(server, budget, list, o);
  }

  lemma ExactOutcome<T(!new)>(server: Server<T>, budget: Budget, list: seq<T>, o: Outcome<T>)
    requires Slices(server, list) && Sound(server, budget, o)
    ensures o.verdict.Fetched?
    ensures o.verdict.paged.complete <==> Fetchable(list, budget)
    ensures o.verdict.paged.complete ==> o.verdict.paged.items == list && o.verdict.paged.total == |list|
  {
    var walk := o.walk;
    WalksAreSliced(server, budget, list, walk.First(), walk.size);
    if walk.pages >= 1 {
      assert Answer(server, walk.First(), walk.size, walk.pages) == Page(Slice(list, walk.pages, walk.size), |list|);
    }
    assert Answer(server, 0, budget.pageSize, 1).total == |list|;
    var r := o.verdict.paged;
    if r.complete {
      CompleteIsFetchable(server, budget, list, walk, r);
    } else if Fetchable(list, budget) && walk.pages >= 1 {
      NothingStopsShort(server, budget, list, walk, r, r.reason.value);
    }
  }

  // ---------------------------------------------------------------- a list that changes under the pager

  /** A server that slices whatever its list is at the time of the request. */
  ghost predicate SlicesInTime<T>(server: Server<T>, lists: nat -> seq<T>) {
    forall request, page, size :: page >= 1 ==>
      server(request, page, size) == Page(Slice(lists(request), page, size), |lists(request)|)
  }

  /** The list in force when page `p` of a walk is requested. */
  function InForce<T>(lists: nat -> seq<T>, first: nat, p: nat): seq<T>
    requires p >= 1
  {
    lists(first + p - 1)
  }

  /** Each of the first `n` pages of a walk shows what the given list has there. */
  ghost predicate ShowsPages<T>(lists: nat -> seq<T>, first: nat, size: nat, n: nat, list: seq<T>) {
    forall p :: 1 <= p <= n ==> Slice(InForce(lists, first, p), p, size) == Slice(list, p, size)
  }

  ghost predicate AsLong<T>(lists: nat -> seq<T>, first: nat, n: nat, list: seq<T>) {
    forall p :: 1 <= p <= n ==> |InForce(lists, first, p)| == |list|
  }

  lemma TimedAnswer<T>(server: Server<T>, lists: nat -> seq<T>, first: nat, size: nat, p: nat)
    requires SlicesInTime(server, lists) && p >= 1
    ensures Answer(server, first, size, p) == Page(Slice(InForce(lists, first, p), p, size), |InForce(lists, first, p)|)
  {
  }

  lemma SliceLength<T>(list: seq<T>, p: nat, size: nat)
    requires p >= 1
    ensures Reach(p - 1, size, |list|) <= Reach(p, size, |list|)
    ensures |Slice(list, p, size)| == Reach(p, size, |list|) - Reach(p - 1, size, |list|)
  {
    ReachGrows(p - 1, p, size, |list|);
  }

  lemma TimedPage<T>(server: Server<T>, lists: nat -> seq<T>, first: nat, size: nat, n: nat, length: nat)
    requires SlicesInTime(server, lists) && n >= 1 && |InForce(lists, first, n)| == length
    ensures Walked(server, first, size, n) ==
            Walked(server, first, size, n - 1) + Slice(InForce(lists, first, n), n, size)
    ensures Reach(n - 1, size, length) <= Reach(n, size, length)
    ensures |Slice(InForce(lists, first, n), n, size)| == Reach(n, size, length) - Reach(n - 1, size, length)
  {
    TimedAnswer(server, lists, first, size, n);
    SliceLength(InForce(lists, first, n), n, size);
  }

  /** A walk over lists of one length is as long as a walk over a list of that length. */
  lemma {:induction false} TimedLength<T>(server: Server<T>, lists: nat -> seq<T>, first: nat, size: nat, n: nat,
                                          list: seq<T>)
    requires SlicesInTime(server, lists) && AsLong(lists, first, n, list)
    ensures |Walked(server, first, size, n)| == Reach(n, size, |list|)
  {
    if n > 0 {
      TimedLength(server, lists, first, size, n - 1, list);
      TimedPage(server, lists, first, size, n, |list|);
    }
  }

  function Beginning<T>(list: seq<T>, n: nat, size: nat): seq<T> { list[..Reach(n, size, |list|)] }

  /** A walk one page longer is a beginning of the list exactly when the rest was and the page is the list's. */
  lemma BeginningGrows<T>(before: seq<T>, page: seq<T>, list: seq<T>, n: nat, size: nat)
    requires n >= 1 && |before| == Reach(n - 1, size, |list|) && |before + page| == Reach(n, size, |list|)
    ensures before + page == Beginning(list, n, size) <==>
            before == Beginning(list, n - 1, size) && page == Slice(list, n, size)
  {
    ReachGrows(n - 1, n, size, |list|);
    SplitWalk(before, page, list, Reach(n - 1, size, |list|), Reach(n, size, |list|));
  }

  /** What holds of nothing, and of each step exactly if of the one before and of a new part, holds of all parts. */
  lemma {:induction false} StepByStep(whole: nat -> bool, part: nat -> bool, n: nat)
    requires whole(0) && forall k :: 1 <= k <= n ==> (whole(k) <==> whole(k - 1) && part(k))
    ensures whole(n) <==> forall k :: 1 <= k <= n ==> part(k)
  {
    if n > 0 {
      StepByStep(whole, part, n - 1);
    }
  }

  lemma TimedStep<T>(server: Server<T>, lists: nat -> seq<T>, first: nat, size: nat, n: nat, list: seq<T>)
    requires SlicesInTime(server, lists) && AsLong(lists, first, n, list) && n >= 1
    ensures Walked(server, first, size, n) == Beginning(list, n, size) <==>
            && Walked(server, first, size, n - 1) == Beginning(list, n - 1, size)
            && Slice(InForce(lists, first, n), n, size) == Slice(list, n, size)
  {
    TimedLength(server, lists, first, size, n - 1, list);
    TimedLength(server, lists, first, size, n, list);
    TimedPage(server, lists, first, size, n, |list|);
    BeginningGrows(Walked(server, first, size, n - 1), Slice(InForce(lists, first, n), n, size), list, n, size);
  }

  /** Two pieces of the right lengths make up a prefix exactly when each is its part of it. */
  lemma SplitWalk<T>(before: seq<T>, last: seq<T>, list: seq<T>, a: nat, b: nat)
    requires a <= b <= |list| && |before| == a && |last| == b - a
    ensures before + last == list[..b] <==> before == list[..a] && last == list[a..b]
  {
    Rejoin(list, a, b);
    if before + last == list[..b] {
      assert before == (before + last)[..a] && last == (before + last)[a..];
      assert list[..b][..a] == list[..a] && list[..b][a..] == list[a..b];
    }
  }

  /**
    The exact condition for coverage, on the server: against a list that may change between
    requests, a complete result is a given list of the announced size, in order, if and only if
    every page the last walk asked for showed, at that moment, what the given list has there.
  */
  lemma CompleteExactlyIfUnmoved<T(!new)>(server: Server<T>, budget: Budget, lists: nat -> seq<T>, list: seq<T>)
    requires SlicesInTime(server, lists)
    requires var v := Run(server, budget, Start(budget)).verdict;
             v.Fetched? && v.paged.complete && v.paged.total == |list|
    ensures var o := Run(server, budget, Start(budget));
            o.verdict.paged.items == list <==> ShowsPages(lists, o.walk.First(), o.walk.size, o.walk.pages, list)
  {
    FetchSound(server, budget);
    var o := Run(server, budget, Start(budget));
    UnmovedWalk(server, budget, lists, list, o.walk, o.verdict.paged);
  }

  lemma {:induction false} StaysAsLong<T>(server: Server<T>, lists: nat -> seq<T>, walk: Walk, total: int, list: seq<T>)
    requires SlicesInTime(server, lists) && total == |list|
    requires Agreed(server, walk.First(), walk.size, walk.pages, total)
    ensures AsLong(lists, walk.First(), walk.pages, list)
  {
    var first, size := walk.First(), walk.size;
    forall p | 1 <= p <= walk.pages
      ensures |InForce(lists, first, p)| == |list|
    {
      TimedAnswer(server, lists, first, size, p);
      assert Answer(server, first, size, p).total == total;
    }
  }

  lemma UnmovedWalk<T(!new)>(server: Server<T>, budget: Budget, lists: nat -> seq<T>, list: seq<T>, walk: Walk,
                             r: Paged<T>)
    requires SlicesInTime(server, lists) && Proven(server, budget, walk, r) && r.total == |list|
    ensures r.items == list <==> ShowsPages(lists, walk.First(), walk.size, walk.pages, list)
  {
    var first, size, n := walk.First(), walk.size, walk.pages;
    StaysAsLong(server, lists, walk, r.total, list);
    TimedWalk(server, lists, first, size, n, list);
    TimedLength(server, lists, first, size, n, list);
    assert list[..|list|] == list;
  }

  /** A walk is the beginning of the list exactly when each page shows the list's own. */
  lemma TimedWalk<T(!new)>(server: Server<T>, lists: nat -> seq<T>, first: nat, size: nat, n: nat, list: seq<T>)
    requires SlicesInTime(server, lists) && AsLong(lists, first, n, list)
    ensures ShowsPages(lists, first, size, n, list) <==> Walked(server, first, size, n) == Beginning(list, n, size)
  {
    var whole := (k: nat) => Walked(server, first, size, k) == Beginning(list, k, size);
    var part := (k: nat) => k >= 1 && Slice(InForce(lists, first, k), k, size) == Slice(list, k, size);
    forall k | 1 <= k <= n
      ensures whole(k) <==> whole(k - 1) && part(k)
    {
      TimedStep(server, lists, first, size, k, list);
    }
    StepByStep(whole, part, n);
    assert forall k :: 1 <= k <= n ==> (part(k) <==> Slice(InForce(lists, first, k), k, size) == Slice(list, k, size));
  }
}
