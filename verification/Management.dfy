/** The connector page builder: filter, project, rank, and cut out one page by a decimal cursor;
    and what a client sees that follows the cursors. */
module Management {

  import opened Wrappers
  import opened Cursor
  import opened Projections
  import opened Ranking
  import C = Connectors
  import S = Supervisor

  /** What a client asks for, apart from the place in the list it has reached. */
  datatype Query = Query(
    tenantId: string,
    connectors: seq<C.Connector>,
    diagnostics: map<string, seq<Diagnostic>>,
    now: int,
    limit: int,
    stateFilter: string,
    kindFilter: string)

  datatype Page = Page(
    tenantId: string,
    limit: int,
    nextCursor: string,
    order: string,
    items: seq<Projection>)

  const PAGE_ORDER := "attention_disabled_ready_name_id"

  function EffectiveLimit(query: Query): (limit: int)
    ensures limit > 0
  {
    if query.limit <= 0 then 20 else query.limit
  }

  /** The epoch stands for "no time given"; `clock` is what the system clock then says. */
  function EffectiveNow(query: Query, clock: int): int {
    if query.now == 0 then clock else query.now
  }

  function DiagnosticsOf(query: Query, id: string): seq<Diagnostic> {
    if id in query.diagnostics then query.diagnostics[id] else []
  }

  predicate Wanted(query: Query, c: C.Connector) {
    && (query.tenantId == "" || c.tenantId == "" || c.tenantId == query.tenantId)
    && (query.kindFilter == "" || c.kind == query.kindFilter)
  }

  predicate StateMatches(query: Query, p: Projection) {
    query.stateFilter == "" || StateName(p.enablementState) == query.stateFilter
  }

  function Shown(query: Query, now: int, c: C.Connector): Projection {
    Project(c, Latest(DiagnosticsOf(query, c.connectorId)), now)
  }

  /** The projection a connector contributes to the list, as a list of none or one. */
  function Pick(query: Query, now: int, c: C.Connector): seq<Projection> {
    if Wanted(query, c) && StateMatches(query, Shown(query, now, c)) then [Shown(query, now, c)] else []
  }

  function Picked(query: Query, now: int, connectors: seq<C.Connector>): seq<Projection> {
    if connectors == [] then [] else Pick(query, now, connectors[0]) + Picked(query, now, connectors[1..])
  }

  /** Everything there is to page through, in order. */
  function Listing(query: Query, clock: int): seq<Projection> {
    Sort(Picked(query, EffectiveNow(query, clock), query.connectors))
  }

  function Offset(all: seq<Projection>, cursor: string): (o: nat)
    ensures o <= |all|
  {
    C.Min(ParseCursorOffset(cursor), |all|)
  }

  /** One page of a list: from the offset, at most `limit` items, and the cursor of what is
      left, if anything is. */
  function Cut(tenantId: string, all: seq<Projection>, limit: int, offset: nat): Page
    requires limit > 0 && offset <= |all|
  {
    var end := C.Min(offset + limit, |all|);
    Page(tenantId, limit, if end < |all| then Decimal(end) else "", PAGE_ORDER, all[offset..end])
  }

  function PageOf(query: Query, cursor: string, clock: int): Page {
    var all := Listing(query, clock);
    Cut(query.tenantId, all, EffectiveLimit(query), Offset(all, cursor))
  }

  lemma {:induction false} PickedSnoc(query: Query, now: int, connectors: seq<C.Connector>, c: C.Connector)
    ensures Picked(query, now, connectors + [c]) == Picked(query, now, connectors) + Pick(query, now, c)
  {
    var all := connectors + [c];
    if connectors == [] {
      assert all[1..] == [];
    } else {
      assert all[1..] == connectors[1..] + [c];
      PickedSnoc(query, now, connectors[1..], c);
    }
  }

  /** The filtering loop of the page builder. */
  method Collect(query: Query, now: int) returns (items: seq<Projection>)
    ensures items == Picked(query, now, query.connectors)
  {
    items := [];
    for i := 0 to |query.connectors|
      invariant items == Picked(query, now, query.connectors[..i])
    {
      var c := query.connectors[i];
      PickedSnoc(query, now, query.connectors[..i], c);
      assert query.connectors[..i + 1] == query.connectors[..i] + [c];
      if query.tenantId != "" && c.tenantId != "" && c.tenantId != query.tenantId {
        continue;
      }
      if query.kindFilter != "" && c.kind != query.kindFilter {
        continue;
      }
      var latest := LatestDiagnostic(DiagnosticsOf(query, c.connectorId));
      var projection := Project(c, latest, now);
      assert projection == Shown(query, now, c);
      if query.stateFilter != "" && StateName(projection.enablementState) != query.stateFilter {
        continue;
      }
      items := items + [projection];
    }
    assert query.connectors[..|query.connectors|] == query.connectors;
  }

  /** `build_connector_page`. */
  method BuildConnectorPage(query: Query, cursor: string, clock: int) returns (page: Page)
    ensures page == PageOf(query, cursor, clock)
  {
    var now := if query.now == 0 then clock else query.now;
    var limit := if query.limit <= 0 then 20 else query.limit;
    var items := Collect(query, now);
    items := Sort(items);
    assert items == Listing(query, clock);
    page := CutPage(query.tenantId, items, limit, Offset(items, cursor));
  }

  method CutPage(tenantId: string, items: seq<Projection>, limit: int, offset: nat) returns (page: Page)
    requires limit > 0 && offset <= |items|
    ensures page == Cut(tenantId, items, limit, offset)
  {
    var end := offset + limit;
    var nextCursor;
    if end < |items| {
      nextCursor := Decimal(end);
    } else {
      end := |items|;
      nextCursor := "";
    }
    page := Page(tenantId, limit, nextCursor, PAGE_ORDER, items[offset..end]);
  }

  /** What a page is: the query's tenant, its limit or twenty, and from the place the cursor means
      the next items of the list, as many as the limit or up to the end; a cursor follows exactly
      when the end is not reached, and it means the place after the page. */
  lemma PageTells(query: Query, cursor: string, clock: int)
    requires |query.connectors| <= I64_MAX
    ensures var page, all := PageOf(query, cursor, clock), Listing(query, clock);
            var from := if ParseCursorOffset(cursor) > |all| then |all| else ParseCursorOffset(cursor);
            && page.tenantId == query.tenantId && page.order == "attention_disabled_ready_name_id"
            && page.limit == (if query.limit <= 0 then 20 else query.limit)
            && from + |page.items| <= |all| && page.items == all[from..from + |page.items|]
            && (from + |page.items| < |all| ==> |page.items| == page.limit) && |page.items| <= page.limit
            && (page.nextCursor == "" <==> from + |page.items| == |all|)
            && (page.nextCursor != "" ==> ParseCursorOffset(page.nextCursor) == from + |page.items|)
  {
    ListingFits(query, clock);
    CursorRoundTrip(Offset(Listing(query, clock), cursor) + EffectiveLimit(query));
  }

  // ------------------------------------------------------------------ the walk

  /** The pages from an offset on. */
  function Walk(tenantId: string, all: seq<Projection>, limit: int, offset: nat): (pages: seq<Page>)
    requires limit > 0 && offset <= |all|
    ensures pages != []
    decreases |all| - offset
  {
    [Cut(tenantId, all, limit, offset)]
    + if offset + limit < |all| then Walk(tenantId, all, limit, offset + limit) else []
  }

  function ItemsOf(pages: seq<Page>): seq<Projection> {
    if pages == [] then [] else pages[0].items + ItemsOf(pages[1..])
  }

  lemma ItemsOfCons(page: Page, pages: seq<Page>)
    ensures ItemsOf([page] + pages) == page.items + ItemsOf(pages)
  {
    assert ([page] + pages)[1..] == pages;
  }

  predicate FullButLast(pages: seq<Page>, limit: int) {
    forall i :: 0 <= i < |pages| - 1 ==> |pages[i].items| == limit
  }

  /** `pages` is the least number of pages of size `limit` that hold `left` items, at least one. */
  predicate JustEnough(pages: nat, limit: int, left: nat) {
    left <= pages * limit && (pages - 1) * limit < (if left == 0 then 1 else left)
  }

  lemma JustEnoughMore(pages: nat, limit: int, left: nat)
    requires limit > 0 && left > 0 && JustEnough(pages, limit, left)
    ensures JustEnough(pages + 1, limit, left + limit)
  {
    assert (pages + 1) * limit == pages * limit + limit;
    assert pages * limit == (pages - 1) * limit + limit;
  }

  lemma {:induction false} WalkItems(tenantId: string, all: seq<Projection>, limit: int, offset: nat)
    requires limit > 0 && offset <= |all|
    ensures ItemsOf(Walk(tenantId, all, limit, offset)) == all[offset..]
    decreases |all| - offset
  {
    var page := Cut(tenantId, all, limit, offset);
    if offset + limit >= |all| {
      ItemsOfOne(page);
    } else {
      var rest := Walk(tenantId, all, limit, offset + limit);
      assert Walk(tenantId, all, limit, offset) == [page] + rest;
      ItemsOfCons(page, rest);
      WalkItems(tenantId, all, limit, offset + limit);
      Rejoined(all, offset, offset + limit);
    }
  }

  lemma ItemsOfOne(page: Page)
    ensures ItemsOf([page]) == page.items
  {
    assert [page][1..] == [];
  }

  lemma Rejoined(all: seq<Projection>, from: nat, to: nat)
    requires from <= to <= |all|
    ensures all[from..to] + all[to..] == all[from..]
  {
  }

  lemma FullButLastCons(page: Page, pages: seq<Page>, limit: int)
    requires pages != [] && |page.items| == limit && FullButLast(pages, limit)
    ensures FullButLast([page] + pages, limit)
  {
    var all := [page] + pages;
    forall i | 0 <= i < |all| - 1 ensures |all[i].items| == limit {
      assert i > 0 ==> all[i] == pages[i - 1];
    }
  }

  lemma {:induction false} WalkPages(tenantId: string, all: seq<Projection>, limit: int, offset: nat)
    requires limit > 0 && offset <= |all|
    ensures FullButLast(Walk(tenantId, all, limit, offset), limit)
    decreases |all| - offset
  {
    var page := Cut(tenantId, all, limit, offset);
    if offset + limit < |all| {
      var rest := Walk(tenantId, all, limit, offset + limit);
      WalkPages(tenantId, all, limit, offset + limit);
      FullButLastCons(page, rest, limit);
      assert Walk(tenantId, all, limit, offset) == [page] + rest;
    }
  }

  lemma {:induction false} WalkCount(tenantId: string, all: seq<Projection>, limit: int, offset: nat)
    requires limit > 0 && offset <= |all|
    ensures JustEnough(|Walk(tenantId, all, limit, offset)|, limit, |all| - offset)
    decreases |all| - offset
  {
    if offset + limit < |all| {
      WalkCount(tenantId, all, limit, offset + limit);
      JustEnoughMore(|Walk(tenantId, all, limit, offset + limit)|, limit, |all| - offset - limit);
    }
  }

  /** From any offset on: the rest of the list, in pages that are full up to the last. */
  lemma WalkFrom(tenantId: string, all: seq<Projection>, limit: int, offset: nat)
    requires limit > 0 && offset <= |all|
    ensures var pages := Walk(tenantId, all, limit, offset);
            && ItemsOf(pages) == all[offset..]
            && FullButLast(pages, limit)
            && JustEnough(|pages|, limit, |all| - offset)
  {
    WalkItems(tenantId, all, limit, offset);
    WalkPages(tenantId, all, limit, offset);
    WalkCount(tenantId, all, limit, offset);
  }

  lemma {:induction false} InsertLength(x: Projection, s: seq<Projection>)
    ensures |Insert(x, s)| == |s| + 1
  {
    if s != [] && !Leq(KeyOf(x), KeyOf(s[0])) {
      InsertLength(x, s[1..]);
    }
  }

  lemma {:induction false} SortLength(s: seq<Projection>)
    ensures |Sort(s)| == |s|
  {
    if s != [] {
      SortLength(s[1..]);
      InsertLength(s[0], Sort(s[1..]));
    }
  }

  lemma {:induction false} PickedLength(query: Query, now: int, connectors: seq<C.Connector>)
    ensures |Picked(query, now, connectors)| <= |connectors|
  {
    if connectors != [] {
      PickedLength(query, now, connectors[1..]);
    }
  }

  lemma ListingFits(query: Query, clock: int)
    ensures |Listing(query, clock)| <= |query.connectors|
  {
    var now := EffectiveNow(query, clock);
    PickedLength(query, now, query.connectors);
    SortLength(Picked(query, now, query.connectors));
  }

  /** A client's session with a page builder: each page is built with the cursor of the one
      before, until a page comes without one. */
  predicate Session(build: string -> Page, cursor: string, pages: seq<Page>) {
    && pages != []
    && pages[0] == build(cursor)
    && (forall i :: 0 < i < |pages| ==> Follows(build, pages, i))
    && (forall i :: 0 <= i < |pages| ==> (Closing(pages, i) <==> i == |pages| - 1))
  }

  predicate Follows(build: string -> Page, pages: seq<Page>, i: nat)
    requires 0 < i < |pages|
  {
    pages[i] == build(pages[i - 1].nextCursor)
  }

  predicate Closing(pages: seq<Page>, i: nat)
    requires i < |pages|
  {
    pages[i].nextCursor == ""
  }

  lemma {:induction false} SessionCons(build: string -> Page, cursor: string, page: Page, pages: seq<Page>)
    requires page == build(cursor) && page.nextCursor != ""
    requires Session(build, page.nextCursor, pages)
    ensures Session(build, cursor, [page] + pages)
  {
    var all := [page] + pages;
    forall i | 0 < i < |all| ensures Follows(build, all, i) {
      assert i > 1 ==> Follows(build, pages, i - 1);
    }
    forall i | 0 <= i < |all| ensures Closing(all, i) <==> i == |all| - 1 {
      assert i > 0 ==> (Closing(pages, i - 1) <==> i == |all| - 1);
    }
  }

  lemma {:induction false} SessionTail(build: string -> Page, cursor: string, pages: seq<Page>)
    requires Session(build, cursor, pages) && |pages| > 1
    ensures pages[0].nextCursor != "" && Session(build, pages[0].nextCursor, pages[1..])
  {
    var rest := pages[1..];
    assert Follows(build, pages, 1) && !Closing(pages, 0);
    forall i | 0 < i < |rest| ensures Follows(build, rest, i) {
      assert Follows(build, pages, i + 1);
    }
    forall i | 0 <= i < |rest| ensures Closing(rest, i) <==> i == |rest| - 1 {
      assert Closing(pages, i + 1) <==> i + 1 == |pages| - 1;
    }
  }

  /** A session is determined by its first cursor. */
  lemma {:induction false} SessionUnique(build: string -> Page, cursor: string, a: seq<Page>, b: seq<Page>)
    requires Session(build, cursor, a) && Session(build, cursor, b)
    ensures a == b
    decreases |a|
  {
    assert Closing(a, 0) <==> |a| == 1;
    assert Closing(b, 0) <==> |b| == 1;
    if |a| > 1 {
      SessionTail(build, cursor, a);
      SessionTail(build, cursor, b);
      SessionUnique(build, a[0].nextCursor, a[1..], b[1..]);
      assert a == [a[0]] + a[1..] && b == [b[0]] + b[1..];
    }
  }

  /** The page builder for one query: what each cursor gives. */
  function Builder(query: Query, clock: int): string -> Page {
    cursor => PageOf(query, cursor, clock)
  }

  lemma OffsetOfPrinted(all: seq<Projection>, end: nat)
    requires end <= |all| <= I64_MAX
    ensures Decimal(end) != "" && Offset(all, Decimal(end)) == end
  {
    CursorRoundTrip(end);
  }

  /** The printed cursor of a page leads exactly to its end: a vector never holds more elements
      than a signed 64-bit number can count, so the printed offset always parses back. */
  lemma {:induction false} WalkIsSession(query: Query, clock: int, cursor: string, offset: nat)
    requires |query.connectors| <= I64_MAX
    requires offset == Offset(Listing(query, clock), cursor)
    ensures Session(Builder(query, clock), cursor, Walk(query.tenantId, Listing(query, clock), EffectiveLimit(query), offset))
    decreases |Listing(query, clock)| - offset
  {
    var all, limit := Listing(query, clock), EffectiveLimit(query);
    ListingFits(query, clock);
    var page, end := Cut(query.tenantId, all, limit, offset), offset + limit;
    assert page == Builder(query, clock)(cursor);
    if end < |all| {
      OffsetOfPrinted(all, end);
      WalkIsSession(query, clock, Decimal(end), end);
      SessionCons(Builder(query, clock), cursor, page, Walk(query.tenantId, all, limit, end));
    }
  }

  lemma EmptyCursor(all: seq<Projection>)
    ensures Offset(all, "") == 0
  {
  }

  /** Following the cursors from the empty one shows the whole list in order, each item once, in
      max(1, ceil(n / limit)) pages that are full up to the last. */
  lemma {:induction false} SessionShowsListing(query: Query, clock: int, pages: seq<Page>)
    requires |query.connectors| <= I64_MAX
    requires Session(Builder(query, clock), "", pages)
    ensures ItemsOf(pages) == Listing(query, clock)
    ensures FullButLast(pages, EffectiveLimit(query))
    ensures JustEnough(|pages|, EffectiveLimit(query), |Listing(query, clock)|)
  {
    var all, limit := Listing(query, clock), EffectiveLimit(query);
    EmptyCursor(all);
    WalkIsSession(query, clock, "", 0);
    SessionUnique(Builder(query, clock), "", pages, Walk(query.tenantId, all, limit, 0));
    WalkFrom(query.tenantId, all, limit, 0);
    assert all[0..] == all;
  }

  /** There is such a session for every query: the walk always ends. */
  lemma {:induction false} SessionExists(query: Query, clock: int) returns (pages: seq<Page>)
    requires |query.connectors| <= I64_MAX
    ensures Session(Builder(query, clock), "", pages)
  {
    EmptyCursor(Listing(query, clock));
    pages := Walk(query.tenantId, Listing(query, clock), EffectiveLimit(query), 0);
    WalkIsSession(query, clock, "", 0);
  }

  // ----------------------------------------------------- what the order depends on

  predicate DistinctIds(connectors: seq<C.Connector>) {
    forall i, j :: 0 <= i < j < |connectors| ==> connectors[i].connectorId != connectors[j].connectorId
  }

  /** With distinct ids, the projections with one key are the one its connector contributes. */
  lemma {:induction false} PickedWith(query: Query, now: int, connectors: seq<C.Connector>, k: Key)
    requires DistinctIds(connectors)
    ensures forall c :: c in connectors && c.connectorId == k.id ==>
              With(Picked(query, now, connectors), k) == With(Pick(query, now, c), k)
    ensures (forall c :: c in connectors ==> c.connectorId != k.id) ==> With(Picked(query, now, connectors), k) == []
  {
    if connectors != [] {
      var c, rest := connectors[0], connectors[1..];
      PickedWith(query, now, rest, k);
      WithConcat(Pick(query, now, c), Picked(query, now, rest), k);
      assert forall d :: d in connectors <==> d == c || d in rest;
      if c.connectorId == k.id {
        assert forall d :: d in rest ==> d.connectorId != k.id;
        assert With(Picked(query, now, rest), k) == [];
      }
    }
  }

  lemma {:induction false} WithConcat(a: seq<Projection>, b: seq<Projection>, k: Key)
    ensures With(a + b, k) == With(a, k) + With(b, k)
  {
    if a == [] {
      assert a + b == b;
    } else {
      assert (a + b)[1..] == a[1..] + b;
      WithConcat(a[1..], b, k);
    }
  }

  /** The order in which connectors are supplied does not matter: the list is the only ordered
      arrangement of what the filters let through. */
  lemma ListingIgnoresInputOrder(query: Query, connectors: seq<C.Connector>, clock: int)
    requires DistinctIds(query.connectors) && DistinctIds(connectors)
    requires forall c :: c in query.connectors <==> c in connectors
    ensures Listing(query.(connectors := connectors), clock) == Listing(query, clock)
  {
    var other, now := query.(connectors := connectors), EffectiveNow(query, clock);
    PickedFrame(query, other, now, connectors);
    var a, b := Picked(query, now, query.connectors), Picked(query, now, connectors);
    SortIsStable(a);
    SortIsStable(b);
    forall k ensures With(Sort(a), k) == With(Sort(b), k) {
      PickedWith(query, now, query.connectors, k);
      PickedWith(query, now, connectors, k);
      if exists c :: c in connectors && c.connectorId == k.id {
        var c :| c in connectors && c.connectorId == k.id;
        assert c in query.connectors;
      }
    }
    StableSortingUnique(Sort(a), Sort(b));
  }

  lemma {:induction false} PickedFrame(query: Query, other: Query, now: int, connectors: seq<C.Connector>)
    requires other == query.(connectors := other.connectors, now := other.now)
    ensures Picked(other, now, connectors) == Picked(query, now, connectors)
  {
    if connectors != [] {
      PickedFrame(query, other, now, connectors[1..]);
    }
  }

  /** Two lists that show the same connectors in the same order and state, up to freshness. */
  predicate SameUpToFreshness(a: seq<Projection>, b: seq<Projection>) {
    |a| == |b| && forall i :: 0 <= i < |a| ==> a[i] == b[i].(freshness := a[i].freshness)
  }

  lemma {:induction false} InsertUpToFreshness(x: Projection, y: Projection, a: seq<Projection>, b: seq<Projection>)
    requires x == y.(freshness := x.freshness) && SameUpToFreshness(a, b)
    ensures SameUpToFreshness(Insert(x, a), Insert(y, b))
  {
    if a != [] && !Leq(KeyOf(x), KeyOf(a[0])) {
      InsertUpToFreshness(x, y, a[1..], b[1..]);
    }
  }

  lemma {:induction false} SortUpToFreshness(a: seq<Projection>, b: seq<Projection>)
    requires SameUpToFreshness(a, b)
    ensures SameUpToFreshness(Sort(a), Sort(b))
  {
    if a != [] {
      SortUpToFreshness(a[1..], b[1..]);
      InsertUpToFreshness(a[0], b[0], Sort(a[1..]), Sort(b[1..]));
    }
  }

  lemma {:induction false} PickedUpToFreshness(query: Query, now: int, later: int, connectors: seq<C.Connector>)
    ensures SameUpToFreshness(Picked(query, now, connectors), Picked(query, later, connectors))
  {
    if connectors != [] {
      PickedUpToFreshness(query, now, later, connectors[1..]);
      assert SameUpToFreshness(Pick(query, now, connectors[0]), Pick(query, later, connectors[0]));
    }
  }

  /** Nor does the time of asking: a page holds the same connectors in the same order and ends
      with the same cursor; only the freshness marks can differ. */
  lemma PagesIgnoreTime(query: Query, cursor: string, clock: int, asked: int, later: int)
    ensures var p, q := PageOf(query, cursor, clock), PageOf(query.(now := asked), cursor, later);
            SameUpToFreshness(p.items, q.items) && p.nextCursor == q.nextCursor
  {
    var other := query.(now := asked);
    var n, m := EffectiveNow(query, clock), EffectiveNow(other, later);
    PickedFrame(query, other, m, query.connectors);
    PickedUpToFreshness(query, n, m, query.connectors);
    SortUpToFreshness(Picked(query, n, query.connectors), Picked(query, m, query.connectors));
    CutUpToFreshness(query.tenantId, Listing(query, clock), Listing(other, later), EffectiveLimit(query),
                     Offset(Listing(query, clock), cursor));
  }

  lemma CutUpToFreshness(tenantId: string, a: seq<Projection>, b: seq<Projection>, limit: int, offset: nat)
    requires SameUpToFreshness(a, b) && limit > 0 && offset <= |a|
    ensures var p, q := Cut(tenantId, a, limit, offset), Cut(tenantId, b, limit, offset);
            SameUpToFreshness(p.items, q.items) && p.nextCursor == q.nextCursor
  {
  }

  // ------------------------------------------------------------ what is listed

  /** The state filter, if there is one, names the state. */
  predicate Named(filter: string, state: ManagementState) {
    || filter == ""
    || (filter == "ready" && state == Ready)
    || (filter == "disabled" && state == Disabled)
    || (filter == "degraded" && state == Degraded)
    || (filter == "unavailable" && state == Unavailable)
    || (filter == "action-required" && state == ActionRequired)
  }

  /** The connector is one the query asks for, and `p` shows it at the time of asking. */
  ghost predicate ShownFor(query: Query, clock: int, c: C.Connector, p: Projection) {
    && (query.tenantId != "" && c.tenantId != "" ==> c.tenantId == query.tenantId)
    && (query.kindFilter != "" ==> c.kind == query.kindFilter)
    && Named(query.stateFilter, p.enablementState)
    && var items := if c.connectorId in query.diagnostics then query.diagnostics[c.connectorId] else [];
       var now := if query.now == 0 then clock else query.now;
       exists d :: NewestOf(items, d) && Tells(p, c, d, now)
  }

  lemma PickedIff(query: Query, clock: int, c: C.Connector, p: Projection)
    ensures p in Pick(query, EffectiveNow(query, clock), c) <==> ShownFor(query, clock, c, p)
  {
    var now, items := EffectiveNow(query, clock), DiagnosticsOf(query, c.connectorId);
    ShownIff(items, c, now, p);
    NamedIff(query.stateFilter, p.enablementState);
    assert p == Shown(query, now, c) <==> exists d :: NewestOf(items, d) && Tells(p, c, d, now);
  }

  lemma ShownIff(items: seq<Diagnostic>, c: C.Connector, now: int, p: Projection)
    ensures p == Project(c, Latest(items), now) <==> exists d :: NewestOf(items, d) && Tells(p, c, d, now)
  {
    LatestIsNewest(items, Latest(items));
    ProjectTells(p, c, Latest(items), now);
    if d :| NewestOf(items, d) && Tells(p, c, d, now) {
      LatestIsNewest(items, d);
    }
  }

  lemma NamedIff(filter: string, state: ManagementState)
    ensures Named(filter, state) <==> filter == "" || StateName(state) == filter
  {
  }

  lemma {:induction false} PickedMembers(query: Query, clock: int, connectors: seq<C.Connector>, p: Projection)
    ensures p in Picked(query, EffectiveNow(query, clock), connectors) <==>
      exists c :: c in connectors && ShownFor(query, clock, c, p)
  {
    if connectors != [] {
      PickedIff(query, clock, connectors[0], p);
      PickedMembers(query, clock, connectors[1..], p);
      assert connectors == [connectors[0]] + connectors[1..];
    }
  }

  /** The list holds exactly the projections of the connectors the query asks for. */
  lemma ListedIff(query: Query, clock: int, p: Projection)
    ensures p in Listing(query, clock) <==> exists c :: c in query.connectors && ShownFor(query, clock, c, p)
  {
    var picked := Picked(query, EffectiveNow(query, clock), query.connectors);
    PickedMembers(query, clock, query.connectors, p);
    SortIsStable(picked);
    SameElements(Sort(picked), picked, p);
  }

  lemma SameElements(a: seq<Projection>, b: seq<Projection>, p: Projection)
    requires forall k :: With(a, k) == With(b, k)
    ensures p in a <==> p in b
  {
    WithElement(a, p);
    WithElement(b, p);
  }

  lemma {:induction false} WithElement(s: seq<Projection>, p: Projection)
    ensures p in With(s, KeyOf(p)) <==> p in s
  {
    if s != [] {
      WithElement(s[1..], p);
      assert s == [s[0]] + s[1..];
    }
  }

  predicate NeedsAttention(p: Projection) {
    p.enablementState == ActionRequired || p.enablementState == Unavailable || p.enablementState == Degraded
  }

  /** `p` may stand before `q`: attention before disabled before ready; within these by name, and
      under one name by id. */
  predicate InOrder(p: Projection, q: Projection) {
    || (NeedsAttention(p) && !NeedsAttention(q))
    || (p.enablementState == Disabled && q.enablementState == Ready)
    || (&& (NeedsAttention(p) <==> NeedsAttention(q)) && (p.enablementState == Ready <==> q.enablementState == Ready)
        && (|| Precedes(p.displayName, q.displayName)
            || (p.displayName == q.displayName && (p.connectorId == q.connectorId || Precedes(p.connectorId, q.connectorId)))))
  }

  lemma LeqIsInOrder(p: Projection, q: Projection)
    ensures Leq(KeyOf(p), KeyOf(q)) <==> InOrder(p, q)
  {
    AtMostPrecedes(p.displayName, q.displayName);
    AtMostPrecedes(p.connectorId, q.connectorId);
    PrecedesIrreflexive(p.displayName);
  }

  lemma PrecedesIrreflexive(s: string)
    ensures !Precedes(s, s)
  {
  }

  /** The list is in that order throughout. */
  lemma ListedInOrder(query: Query, clock: int, i: nat, j: nat)
    requires i < j < |Listing(query, clock)|
    ensures InOrder(Listing(query, clock)[i], Listing(query, clock)[j])
  {
    var all := Listing(query, clock);
    SortIsStable(Picked(query, EffectiveNow(query, clock), query.connectors));
    assert Leq(KeyOf(all[i]), KeyOf(all[j]));
    LeqIsInOrder(all[i], all[j]);
  }

  /** Connectors that need attention come first and the delivery-eligible ones last. */
  lemma AttentionFirstEligibleLast(query: Query, clock: int, i: nat, j: nat)
    requires i < j < |Listing(query, clock)|
    ensures var earlier, later := Listing(query, clock)[i], Listing(query, clock)[j];
            && (NeedsAttention(later) ==> NeedsAttention(earlier))
            && (earlier.deliveryEligible ==> later.deliveryEligible)
  {
    var all := Listing(query, clock);
    ListedInOrder(query, clock, i, j);
    EligibleIsReady(query, clock, all[i]);
    EligibleIsReady(query, clock, all[j]);
  }

  lemma EligibleIsReady(query: Query, clock: int, p: Projection)
    requires p in Listing(query, clock)
    ensures p.deliveryEligible <==> p.enablementState == Ready
  {
    ListedIff(query, clock, p);
  }

  // ---------------------------------------------------------- disabled connectors

  /** Throughout a disabled period every projection of the connector, with any diagnostic and at
      any time, is disabled and not eligible for delivery. */
  lemma DisabledUntilReopenedIsNotEligible(ops: seq<S.Op>, rest: seq<S.Op>, id: string,
                                           diagnostic: Option<Diagnostic>, now: int)
    requires ops != [] && ops[|ops| - 1].Disable? && ops[|ops| - 1].id == id && S.LastReply(ops).Accepted?
    requires forall i :: 0 <= i < |rest| ==> !S.Reopens(rest[i], id)
    ensures id in S.Run(ops + rest).byId
    ensures var p := Project(S.Run(ops + rest).byId[id], diagnostic, now);
            p.enablementState == Disabled && !p.deliveryEligible
  {
    S.DisabledUntilReopened(ops, rest, id);
  }
}
