/**
 Browsing and searching: the filters, the three orderings, one page of results, and a client's walk
 through all pages by the text cursors it is handed, while the table changes underneath.
 */
module Search {
  import opened Wrappers
  import opened Listings
  import opened Keyset
  import opened SqlRules
  import Cursors

  const MAX_SEARCH_LIMIT := 100
  const MAX_SEARCH_Q_LENGTH := 200
  const MAX_LISTING_TYPE_LENGTH := 50

  datatype Filter = Filter(
    status: Option<Status>, includeTest: bool, listingType: Option<string>, taskCategories: seq<string>,
    claimed: Option<bool>, paymentNetwork: Option<string>, maxPrice: Option<real>, hasTemplate: Option<bool>,
    stale: Option<bool>)

  /** PostgreSQL's text search, the settings it runs under, and the recognised stablecoins. */
  datatype Engine = Engine(
    fullText: (Content, string) -> bool, rank: (Content, string) -> real,
    similar: (Content, string) -> bool, similarity: (Content, string) -> real,
    trigramAvailable: bool, staleAfter: Time, stablecoins: set<(Unbarred, Unbarred)>)

  /** What a query sees: the table at one instant, and the clock. */
  datatype Moment = Moment(table: Table, now: Time)

  datatype Condition =
    | StatusIs(status: Status)
    | NotTest
    | TypeIs(listingType: string)
    | SharesCategory(categories: seq<string>)
    | ClaimedIs(claimed: bool)
    | PayableWith(network: Option<string>, maxPrice: Option<real>)
    | TemplateIs(present: bool)
    | StaleIs(stale: bool)

  predicate Holds(engine: Engine, c: Condition, row: Row, now: Time) {
    match c
    case StatusIs(s) => row.status == s
    case NotTest => !row.isTest
    case TypeIs(t) => row.content.listingType == t
    case SharesCategory(cs) => exists x :: x in cs && x in row.content.taskCategories
    case ClaimedIs(b) => row.claimed == b
    case PayableWith(n, m) =>
      exists p :: p in row.content.paymentOptions && Keeps(PayableSql(p, n, m, StablecoinKeys(engine.stablecoins)))
    case TemplateIs(b) => row.content.outputSchema.Some? == b
    case StaleIs(b) =>
      var stale := StaleSql(row, now, engine.staleAfter);
      Keeps(if b then stale else Not(stale))
  }

  predicate AllHold(engine: Engine, cs: seq<Condition>, row: Row, now: Time) {
    forall i :: 0 <= i < |cs| ==> Holds(engine, cs[i], row, now)
  }

  /** What the arguments ask of the listing itself; one left out asks for nothing, except the status. */
  predicate MatchesListing(f: Filter, row: Row) {
    && row.status == GetOr(f.status, Active)
    && (f.includeTest || !row.isTest)
    && (f.listingType.Some? ==> row.content.listingType == f.listingType.value)
    && (f.taskCategories != [] ==> exists x :: x in f.taskCategories && x in row.content.taskCategories)
    && (f.claimed.Some? ==> row.claimed == f.claimed.value)
  }

  /** One payment option is on the network asked for, in a stablecoin and within the cap, of what is asked. */
  predicate MatchesPayment(engine: Engine, f: Filter, row: Row) {
    exists p :: p in row.content.paymentOptions
      && (f.paymentNetwork.Some? ==> p.network == f.paymentNetwork.value)
      && (f.maxPrice.Some? ==>
            p.amount.Some? && p.amount.value <= f.maxPrice.value && PaidInCoin(p, engine.stablecoins))
  }

  /** What the filter asks for: the listing itself, how it is paid, its template and its freshness. */
  predicate Matches(engine: Engine, f: Filter, row: Row, now: Time) {
    && MatchesListing(f, row)
    && (f.paymentNetwork.Some? || f.maxPrice.Some? ==> MatchesPayment(engine, f, row))
    && (f.hasTemplate.Some? ==> row.content.outputSchema.Some? == f.hasTemplate.value)
    && (f.stale.Some? ==> IsStale(row, now, engine.staleAfter) == f.stale.value)
  }

  lemma OneMoreCondition(engine: Engine, cs: seq<Condition>, c: Condition)
    ensures forall row, now :: AllHold(engine, cs + [c], row, now) <==>
                               AllHold(engine, cs, row, now) && Holds(engine, c, row, now)
  {
    forall row, now
      ensures AllHold(engine, cs + [c], row, now) <==> AllHold(engine, cs, row, now) && Holds(engine, c, row, now)
    {
      var all := cs + [c];
      assert all[|cs|] == c && forall i :: 0 <= i < |cs| ==> all[i] == cs[i];
    }
  }

  /** The condition list the query is built from says exactly what the filter asks for. */
  method FilterConditions(engine: Engine, f: Filter) returns (conditions: seq<Condition>)
    ensures forall row, now :: AllHold(engine, conditions, row, now) <==> Matches(engine, f, row, now)
  {
    conditions := ListingConditions(engine, f);
    if f.paymentNetwork.Some? || f.maxPrice.Some? {
      PayableIsMatched(engine, f);
      conditions := Append(engine, conditions, PayableWith(f.paymentNetwork, f.maxPrice));
    }
    if f.hasTemplate.Some? { conditions := Append(engine, conditions, TemplateIs(f.hasTemplate.value)); }
    if f.stale.Some? {
      forall row, now
        ensures Holds(engine, StaleIs(f.stale.value), row, now) <==>
                  IsStale(row, now, engine.staleAfter) == f.stale.value {
        StaleSqlIsStale(row, now, engine.staleAfter);
      }
      conditions := Append(engine, conditions, StaleIs(f.stale.value));
    }
  }

  lemma PayableIsMatched(engine: Engine, f: Filter)
    ensures forall row, now :: Holds(engine, PayableWith(f.paymentNetwork, f.maxPrice), row, now) <==>
                                 MatchesPayment(engine, f, row)
  {
    forall row: Row, p | p in row.content.paymentOptions
      ensures Keeps(PayableSql(p, f.paymentNetwork, f.maxPrice, StablecoinKeys(engine.stablecoins))) <==>
                && (f.paymentNetwork.Some? ==> p.network == f.paymentNetwork.value)
                && (f.maxPrice.Some? ==>
                      p.amount.Some? && p.amount.value <= f.maxPrice.value && PaidInCoin(p, engine.stablecoins))
    {
      PayableSqlKeeps(p, f.paymentNetwork, f.maxPrice, engine.stablecoins);
    }
  }

  method ListingConditions(ghost engine: Engine, f: Filter) returns (conditions: seq<Condition>)
    ensures forall row, now :: AllHold(engine, conditions, row, now) <==> MatchesListing(f, row)
  {
    assert forall row, now :: AllHold(engine, [], row, now);
    conditions := Append(engine, [], StatusIs(GetOr(f.status, Active)));
    if !f.includeTest { conditions := Append(engine, conditions, NotTest); }
    if f.listingType.Some? { conditions := Append(engine, conditions, TypeIs(f.listingType.value)); }
    if f.taskCategories != [] { conditions := Append(engine, conditions, SharesCategory(f.taskCategories)); }
    if f.claimed.Some? { conditions := Append(engine, conditions, ClaimedIs(f.claimed.value)); }
  }

  method Append(ghost engine: Engine, cs: seq<Condition>, c: Condition) returns (all: seq<Condition>)
    ensures all == cs + [c]
    ensures forall row, now :: AllHold(engine, all, row, now) <==>
                               AllHold(engine, cs, row, now) && Holds(engine, c, row, now)
  {
    OneMoreCondition(engine, cs, c);
    all := cs + [c];
  }

  /**
   With one clock the SQL filters stale=true and stale=false split every result into two disjoint
   parts, the rows whose `stale` field is true and those whose is false.
   */
  lemma StaleSplitsResults(engine: Engine, conditions: seq<Condition>, row: Row, now: Time)
    ensures var yes, no := conditions + [StaleIs(true)], conditions + [StaleIs(false)];
            && (AllHold(engine, yes, row, now) <==>
                  AllHold(engine, conditions, row, now) && IsStale(row, now, engine.staleAfter))
            && (AllHold(engine, no, row, now) <==>
                  AllHold(engine, conditions, row, now) && !IsStale(row, now, engine.staleAfter))
  {
    OneMoreCondition(engine, conditions, StaleIs(true));
    OneMoreCondition(engine, conditions, StaleIs(false));
    StaleSqlIsStale(row, now, engine.staleAfter);
  }

  datatype Mode = ByActivity | ByRank | BySimilarity

  predicate Selected(engine: Engine, f: Filter, q: string, mode: Mode, row: Row, now: Time) {
    && Matches(engine, f, row, now)
    && (mode.ByRank? ==> engine.fullText(row.content, q))
    && (mode.BySimilarity? ==> engine.trigramAvailable && engine.similar(row.content, q))
  }

  function SortValue(engine: Engine, q: string, mode: Mode, row: Row): real {
    match mode
    case ByActivity => LastActivity(row) as real
    case ByRank => engine.rank(row.content, q)
    case BySimilarity => engine.similarity(row.content, q)
  }

  /** The rows one mode of the query sees, each with the value it is ordered by. */
  function ViewAt(engine: Engine, m: Moment, f: Filter, q: string, mode: Mode): View {
    map id | id in m.table && Selected(engine, f, q, mode, m.table[id], m.now)
      :: SortValue(engine, q, mode, m.table[id])
  }

  lemma StaleSplitsRow(engine: Engine, f: Filter, q: string, mode: Mode, row: Row, now: Time, stale: bool)
    requires f.stale.None?
    ensures Selected(engine, f.(stale := Some(stale)), q, mode, row, now) <==>
            Selected(engine, f, q, mode, row, now) && IsStale(row, now, engine.staleAfter) == stale
  { }

  /** And so they split what any mode of the query sees. */
  lemma StaleSplitsViews(engine: Engine, m: Moment, f: Filter, q: string, mode: Mode)
    requires f.stale.None?
    ensures var yes := ViewAt(engine, m, f.(stale := Some(true)), q, mode);
            var no := ViewAt(engine, m, f.(stale := Some(false)), q, mode);
            yes.Keys !! no.Keys && yes + no == ViewAt(engine, m, f, q, mode)
  {
    var yes := ViewAt(engine, m, f.(stale := Some(true)), q, mode);
    var no := ViewAt(engine, m, f.(stale := Some(false)), q, mode);
    StaleView(engine, m, f, q, mode, true);
    StaleView(engine, m, f, q, mode, false);
    assert forall id :: id in yes + no <==> id in ViewAt(engine, m, f, q, mode);
  }

  /** A filter on `stale` keeps the rows of a view whose field has that value, in their places. */
  lemma StaleView(engine: Engine, m: Moment, f: Filter, q: string, mode: Mode, stale: bool)
    requires f.stale.None?
    ensures ViewAt(engine, m, f.(stale := Some(stale)), q, mode) ==
            map id | id in ViewAt(engine, m, f, q, mode) && IsStale(m.table[id], m.now, engine.staleAfter) == stale
              :: ViewAt(engine, m, f, q, mode)[id]
  {
    forall id | id in m.table
      ensures Selected(engine, f.(stale := Some(stale)), q, mode, m.table[id], m.now) <==>
              Selected(engine, f, q, mode, m.table[id], m.now)
              && IsStale(m.table[id], m.now, engine.staleAfter) == stale
    {
      StaleSplitsRow(engine, f, q, mode, m.table[id], m.now, stale);
    }
  }

  function QueryText(q: Option<string>): string {
    GetOr(q, "")
  }

  /** Decided once, on the first page: full text if it finds anything, otherwise similarity. */
  function FirstMode(engine: Engine, m: Moment, f: Filter, q: Option<string>): Mode {
    if !Cursors.Searching(q) then ByActivity
    else if |ViewAt(engine, m, f, q.value, ByRank)| > 0 then ByRank
    else BySimilarity
  }

  function ModeOf(c: Cursors.Cursor): Mode {
    match c case Activity(_, _) => ByActivity case Rank(_, _, _) => ByRank case Similarity(_, _, _) => BySimilarity
  }

  function KeyOf(c: Cursors.Cursor): Key {
    match c
    case Activity(t, id) => Key(t as real, id)
    case Rank(v, id, _) => Key(v, id)
    case Similarity(v, id, _) => Key(v, id)
  }

  datatype Found = Found(rows: seq<Key>, total: nat, next: Option<Key>, mode: Mode)

  /** One page of listings, the total that match, and the mode that was used. */
  ghost function ListListings(
    engine: Engine, m: Moment, f: Filter, q: Option<string>, limit: nat, offset: nat, cursor: Option<Cursors.Cursor>
  ): Found {
    var mode := if cursor.Some? then ModeOf(cursor.value) else FirstMode(engine, m, f, q);
    var view := ViewAt(engine, m, f, QueryText(q), mode);
    var page := PageOf(view, if cursor.Some? then Some(KeyOf(cursor.value)) else None, offset, limit);
    Found(page.rows, |view|, page.next, mode)
  }

  datatype Request = Request(filter: Filter, q: Option<string>, limit: int, offset: int, cursor: Option<string>)

  datatype Refusal = Invalid(field: string) | CursorWithOffset | BadCursor(problem: Cursors.Problem)

  datatype ListingsPage = ListingsPage(ids: seq<Id>, total: nat, nextCursor: Option<string>)

  /** The bounds every front end enforces before it searches. */
  function Check(r: Request): Option<Refusal> {
    if r.filter.listingType.Some? && |r.filter.listingType.value| > MAX_LISTING_TYPE_LENGTH
    then Some(Invalid("listing_type"))
    else if r.q.Some? && |r.q.value| > MAX_SEARCH_Q_LENGTH then Some(Invalid("q"))
    else if !(1 <= r.limit <= MAX_SEARCH_LIMIT) then Some(Invalid("limit"))
    else if r.offset < 0 then Some(Invalid("offset"))
    else if r.cursor.Some? && r.offset != 0 then Some(CursorWithOffset)
    else if r.cursor.Some? && |r.cursor.value| > Cursors.MAX_CURSOR_LENGTH then Some(BadCursor(Cursors.NotACursor))
    else if r.filter.maxPrice.Some? && r.filter.maxPrice.value < 0.0 then Some(Invalid("max_price"))
    else None
  }

  function CursorFor(codec: Cursors.Codec, mode: Mode, q: string, k: Key): Cursors.Cursor {
    match mode
    case ByActivity => Cursors.Activity(k.value.Floor, k.id)
    case ByRank => Cursors.Rank(k.value, k.id, codec.fingerprint(q))
    case BySimilarity => Cursors.Similarity(k.value, k.id, codec.fingerprint(q))
  }

  function Ids(rows: seq<Key>): seq<Id> {
    seq(|rows|, i requires 0 <= i < |rows| => rows[i].id)
  }

  ghost function SearchListings(codec: Cursors.Codec, engine: Engine, m: Moment,
                                r: Request): Result<ListingsPage, Refusal> {
    var refusal := Check(r);
    if refusal.Some? then Err(refusal.value)
    else match codec.resolve(r.cursor, r.q)
      case Err(problem) => Err(BadCursor(problem))
      case Ok(cursor) =>
        var found := ListListings(engine, m, r.filter, r.q, r.limit, r.offset, cursor);
        Ok(ListingsPage(Ids(found.rows), found.total,
          if found.next.None? then None
          else Some(codec.encode(CursorFor(codec, found.mode, QueryText(r.q), found.next.value)))))
  }

  /** A client follows next cursors; `moments[i]` is what the database holds when page `i` is asked for. */
  ghost function ClientWalk(codec: Cursors.Codec, engine: Engine, moments: seq<Moment>,
                            r: Request): seq<Result<ListingsPage, Refusal>> {
    if moments == [] then []
    else
      var page := SearchListings(codec, engine, moments[0], r);
      [page] + if page.Err? || page.value.nextCursor.None? then []
               else ClientWalk(codec, engine, moments[1..], r.(cursor := page.value.nextCursor, offset := 0))
  }

  /** Every listing has a plain id, and the value this mode orders it by has a text. */
  ghost predicate Carried(codec: Cursors.Codec, engine: Engine, t: Table, q: string, mode: Mode) {
    forall id :: id in t ==> Cursors.CursorId(id) && ValueCarried(codec, mode, SortValue(engine, q, mode, t[id]))
  }

  ghost predicate ValueCarried(codec: Cursors.Codec, mode: Mode, value: real) {
    if mode.ByActivity? then value.Floor as real == value && codec.isTime(value.Floor) else codec.isReal(value)
  }

  ghost predicate AllCarried(codec: Cursors.Codec, engine: Engine, moments: seq<Moment>, q: string, mode: Mode) {
    forall i :: 0 <= i < |moments| ==> Carried(codec, engine, moments[i].table, q, mode)
  }

  function ViewsOf(engine: Engine, moments: seq<Moment>, f: Filter, q: string, mode: Mode): seq<View> {
    seq(|moments|, i requires 0 <= i < |moments| => ViewAt(engine, moments[i], f, q, mode))
  }

  /** Handing out a cursor and taking it back leaves the same sort key, mode and query. */
  lemma CursorResumes(codec: Cursors.Codec, q: Option<string>, mode: Mode, k: Key)
    requires Cursors.Sound(codec) && Cursors.CursorId(k.id) && ValueCarried(codec, mode, k.value)
    requires mode.ByActivity? <==> !Cursors.Searching(q)
    ensures var c := CursorFor(codec, mode, QueryText(q), k);
            && codec.resolve(Some(codec.encode(c)), q) == Ok(Some(c))
            && ModeOf(c) == mode && KeyOf(c) == k
            && |codec.encode(c)| <= Cursors.MAX_CURSOR_LENGTH
  {
    assert Cursors.Survives(codec, CursorFor(codec, mode, QueryText(q), k), q);
  }

  /** The client stopped because a page had no next cursor. */
  ghost predicate Finished(pages: seq<Result<ListingsPage, Refusal>>) {
    pages != [] && var last := pages[|pages| - 1]; last.Ok? && last.value.nextCursor.None?
  }

  ghost predicate SamePages(pages: seq<Result<ListingsPage, Refusal>>, walk: seq<seq<Key>>) {
    |pages| == |walk| && forall i :: 0 <= i < |pages| ==> pages[i].Ok? && pages[i].value.ids == Ids(walk[i])
  }

  /** A valid request whose cursor, if any, stands for `key` in this mode. */
  ghost predicate At(codec: Cursors.Codec, r: Request, mode: Mode, key: Option<Key>) {
    && Check(r).None? && r.offset == 0
    && (mode.ByActivity? <==> !Cursors.Searching(r.q))
    && var c := codec.resolve(r.cursor, r.q);
       c.Ok? && if key.None? then c.value.None?
                else c.value.Some? && ModeOf(c.value.value) == mode && KeyOf(c.value.value) == key.value
  }

  /** The mode is the cursor's, or the one the first page chooses. */
  ghost predicate Chosen(engine: Engine, m: Moment, r: Request, mode: Mode, key: Option<Key>) {
    key.None? ==> mode == FirstMode(engine, m, r.filter, r.q)
  }

  /** One page through the API is the keyset page. */
  lemma PageThroughApi(codec: Cursors.Codec, engine: Engine, m: Moment, r: Request, mode: Mode, key: Option<Key>)
    requires At(codec, r, mode, key) && Chosen(engine, m, r, mode, key)
    ensures var view := ViewAt(engine, m, r.filter, QueryText(r.q), mode);
            var p, page := PageOf(view, key, 0, r.limit), SearchListings(codec, engine, m, r);
            && page.Ok? && page.value.ids == Ids(p.rows) && page.value.total == |view|
            && page.value.nextCursor == if p.next.None? then None
                 else Some(codec.encode(CursorFor(codec, mode, QueryText(r.q), p.next.value)))
  {
  }

  /** The cursor a page hands out resumes right after it. */
  lemma NextRequestIsAt(
    codec: Cursors.Codec, engine: Engine, m: Moment, r: Request, mode: Mode, key: Option<Key>, next: Key)
    requires Cursors.Sound(codec) && Carried(codec, engine, m.table, QueryText(r.q), mode) && At(codec, r, mode, key)
    requires PageOf(ViewAt(engine, m, r.filter, QueryText(r.q), mode), key, 0, r.limit).next == Some(next)
    ensures At(codec, r.(cursor := Some(codec.encode(CursorFor(codec, mode, QueryText(r.q), next))), offset := 0),
               mode, Some(next))
  {
    NextIsInView(ViewAt(engine, m, r.filter, QueryText(r.q), mode), key, r.limit, next);
    CursorResumes(codec, r.q, mode, next);
  }

  /** Following text cursors is the keyset walk over what each page could see: no page is ever refused. */
  lemma {:induction false} ClientWalkIsKeysetWalk(
    codec: Cursors.Codec, engine: Engine, moments: seq<Moment>, r: Request, mode: Mode, key: Option<Key>)
    requires Cursors.Sound(codec) && AllCarried(codec, engine, moments, QueryText(r.q), mode)
    requires At(codec, r, mode, key) && (moments != [] ==> Chosen(engine, moments[0], r, mode, key))
    ensures var pages, views := ClientWalk(codec, engine, moments, r),
                                ViewsOf(engine, moments, r.filter, QueryText(r.q), mode);
            && SamePages(pages, Walk(views, key, r.limit))
            && (Finished(pages) <==> Completed(views, key, r.limit))
    decreases |moments|
  {
    if moments != [] {
      var m, f, q := moments[0], r.filter, QueryText(r.q);
      var p := PageOf(ViewAt(engine, m, f, q, mode), key, 0, r.limit);
      ViewsStart(engine, moments, f, q, mode);
      PageThroughApi(codec, engine, m, r, mode, key);
      if p.next.Some? {
        var page := SearchListings(codec, engine, m, r);
        var next := r.(cursor := page.value.nextCursor, offset := 0);
        var later := ViewsOf(engine, moments[1..], f, q, mode);
        NextRequestIsAt(codec, engine, m, r, mode, key, p.next.value);
        ClientWalkIsKeysetWalk(codec, engine, moments[1..], next, mode, p.next);
        MorePages(page, ClientWalk(codec, engine, moments[1..], next), p.rows, Walk(later, p.next, r.limit));
        WalkGoesOn(ViewsOf(engine, moments, f, q, mode), key, r.limit);
      } else {
        WalkEnds(ViewsOf(engine, moments, f, q, mode), key, r.limit);
        ClientStops(codec, engine, moments, r, p.rows);
      }
    }
  }

  lemma WalkGoesOn(views: seq<View>, key: Option<Key>, limit: nat)
    requires views != [] && PageOf(views[0], key, 0, limit).next.Some?
    ensures var p := PageOf(views[0], key, 0, limit);
            && Walk(views, key, limit) == [p.rows] + Walk(views[1..], p.next, limit)
            && (Completed(views, key, limit) <==> Completed(views[1..], p.next, limit))
  { }

  lemma WalkEnds(views: seq<View>, key: Option<Key>, limit: nat)
    requires views != [] && PageOf(views[0], key, 0, limit).next.None?
    ensures Walk(views, key, limit) == [PageOf(views[0], key, 0, limit).rows] && Completed(views, key, limit)
  { }

  lemma ClientStops(codec: Cursors.Codec, engine: Engine, moments: seq<Moment>, r: Request, rows: seq<Key>)
    requires moments != []
    requires var page := SearchListings(codec, engine, moments[0], r);
             page.Ok? && page.value.nextCursor.None? && page.value.ids == Ids(rows)
    ensures SamePages(ClientWalk(codec, engine, moments, r), [rows]) && Finished(ClientWalk(codec, engine, moments, r))
  {
    assert ClientWalk(codec, engine, moments, r) == [SearchListings(codec, engine, moments[0], r)];
  }

  lemma ViewsStart(engine: Engine, moments: seq<Moment>, f: Filter, q: string, mode: Mode)
    requires moments != []
    ensures var views := ViewsOf(engine, moments, f, q, mode);
            views[0] == ViewAt(engine, moments[0], f, q, mode)
            && views[1..] == ViewsOf(engine, moments[1..], f, q, mode)
  { }

  lemma MorePages(page: Result<ListingsPage, Refusal>, pages: seq<Result<ListingsPage, Refusal>>, rows: seq<Key>,
                  walk: seq<seq<Key>>)
    requires page.Ok? && page.value.ids == Ids(rows) && page.value.nextCursor.Some? && SamePages(pages, walk)
    ensures SamePages([page] + pages, [rows] + walk)
    ensures Finished([page] + pages) <==> Finished(pages)
  {
  }

  function TimesListed(pages: seq<Result<ListingsPage, Refusal>>, id: Id): nat {
    if pages == [] then 0
    else (if pages[0].Ok? then multiset(pages[0].value.ids)[id] else 0) + TimesListed(pages[1..], id)
  }

  lemma {:induction false} IdsCount(rows: seq<Key>, id: Id)
    ensures multiset(Ids(rows))[id] == TimesOn(rows, id)
  {
    if rows == [] {
      assert Ids(rows) == [];
    } else {
      assert Ids(rows) == [rows[0].id] + Ids(rows[1..]);
      IdsCount(rows[1..], id);
    }
  }

  lemma {:induction false} SamePagesSameCounts(pages: seq<Result<ListingsPage, Refusal>>, walk: seq<seq<Key>>, id: Id)
    requires SamePages(pages, walk)
    ensures TimesListed(pages, id) == TimesReturned(walk, id)
  {
    if pages != [] {
      IdsCount(walk[0], id);
      SamePagesSameCounts(pages[1..], walk[1..], id);
    }
  }

  /** A request that starts a walk: valid, no cursor, from the beginning. */
  predicate Starts(r: Request) {
    Check(r).None? && r.cursor.None? && r.offset == 0
  }

  /** The row is selected by the walk's mode at every page, always with the same sort value. */
  ghost predicate StaysPut(engine: Engine, moments: seq<Moment>, r: Request, mode: Mode, id: Id, value: real) {
    Steady(ViewsOf(engine, moments, r.filter, QueryText(r.q), mode), id, value)
  }

  /** Whatever is written between pages, a finished walk lists every row that stays put exactly once. */
  lemma WalkListsSteadyRowOnce(
    codec: Cursors.Codec, engine: Engine, moments: seq<Moment>, r: Request, id: Id, value: real)
    requires Starts(r) && moments != [] && Cursors.Sound(codec)
    requires AllCarried(codec, engine, moments, QueryText(r.q), FirstMode(engine, moments[0], r.filter, r.q))
    requires Finished(ClientWalk(codec, engine, moments, r))
    requires StaysPut(engine, moments, r, FirstMode(engine, moments[0], r.filter, r.q), id, value)
    ensures TimesListed(ClientWalk(codec, engine, moments, r), id) == 1
  {
    var mode := FirstMode(engine, moments[0], r.filter, r.q);
    ClientWalkIsKeysetWalk(codec, engine, moments, r, mode, None);
    var views := ViewsOf(engine, moments, r.filter, QueryText(r.q), mode);
    SteadyRowReturnedOnce(views, None, r.limit, id, value);
    SamePagesSameCounts(ClientWalk(codec, engine, moments, r), Walk(views, None, r.limit), id);
  }

  ghost predicate ActivityOnlyGrows(moments: seq<Moment>, id: Id) {
    forall i, j :: 0 <= i <= j < |moments| && id in moments[i].table && id in moments[j].table ==>
      LastActivity(moments[i].table[id]) <= LastActivity(moments[j].table[id])
  }

  lemma GrowsInViews(engine: Engine, moments: seq<Moment>, f: Filter, q: string, id: Id)
    requires ActivityOnlyGrows(moments, id)
    ensures OnlyGrows(ViewsOf(engine, moments, f, q, ByActivity), id)
  { }

  /** A browse never lists a row twice while listings' activity only grows; rows may come and go otherwise. */
  lemma BrowseNeverRepeats(codec: Cursors.Codec, engine: Engine, moments: seq<Moment>, r: Request, id: Id)
    requires Cursors.Sound(codec) && AllCarried(codec, engine, moments, QueryText(r.q), ByActivity)
    requires Starts(r) && !Cursors.Searching(r.q)
    requires ActivityOnlyGrows(moments, id)
    ensures TimesListed(ClientWalk(codec, engine, moments, r), id) <= 1
  {
    ClientWalkIsKeysetWalk(codec, engine, moments, r, ByActivity, None);
    var views := ViewsOf(engine, moments, r.filter, QueryText(r.q), ByActivity);
    GrowsInViews(engine, moments, r.filter, QueryText(r.q), id);
    GrowingRowNeverRepeated(views, None, r.limit, id);
    SamePagesSameCounts(ClientWalk(codec, engine, moments, r), Walk(views, None, r.limit), id);
  }

  function ListedIds(pages: seq<Result<ListingsPage, Refusal>>): seq<Id> {
    if pages == [] then [] else (if pages[0].Ok? then pages[0].value.ids else []) + ListedIds(pages[1..])
  }

  lemma {:induction false} ListedAreWalked(pages: seq<Result<ListingsPage, Refusal>>, walk: seq<seq<Key>>)
    requires SamePages(pages, walk)
    ensures ListedIds(pages) == Ids(Concat(walk))
  {
    if pages != [] {
      ListedAreWalked(pages[1..], walk[1..]);
      var rest := Concat(walk[1..]);
      assert Ids(walk[0] + rest) == Ids(walk[0]) + Ids(rest);
    }
  }

  lemma QuietViews(engine: Engine, moments: seq<Moment>, f: Filter, q: string, mode: Mode, m: Moment)
    requires forall i :: 0 <= i < |moments| ==> moments[i] == m
    ensures AllSame(ViewsOf(engine, moments, f, q, mode), ViewAt(engine, m, f, q, mode))
  { }

  /** While nothing is written, the pages put end to end are the one sorted result, in any of the three modes. */
  lemma QuietWalkListsEverythingInOrder(codec: Cursors.Codec, engine: Engine, moments: seq<Moment>, r: Request,
                                        m: Moment)
    requires Starts(r) && Cursors.Sound(codec)
    requires Carried(codec, engine, m.table, QueryText(r.q), FirstMode(engine, m, r.filter, r.q))
    requires moments != [] && forall i :: 0 <= i < |moments| ==> moments[i] == m
    requires Finished(ClientWalk(codec, engine, moments, r))
    ensures ListedIds(ClientWalk(codec, engine, moments, r)) ==
            Ids(Ranked(KeysOf(ViewAt(engine, m, r.filter, QueryText(r.q), FirstMode(engine, m, r.filter, r.q)))))
  {
    var mode := FirstMode(engine, m, r.filter, r.q);
    var view := ViewAt(engine, m, r.filter, QueryText(r.q), mode);
    var views := ViewsOf(engine, moments, r.filter, QueryText(r.q), mode);
    FirstWalk(codec, engine, moments, r);
    QuietViews(engine, moments, r.filter, QueryText(r.q), mode, m);
    WholeViewWalked(views, view, r.limit);
  }

  /** A walk from the start lists what the keyset walk returns. */
  lemma FirstWalk(codec: Cursors.Codec, engine: Engine, moments: seq<Moment>, r: Request)
    requires Starts(r) && moments != [] && Cursors.Sound(codec)
    requires AllCarried(codec, engine, moments, QueryText(r.q), FirstMode(engine, moments[0], r.filter, r.q))
    ensures var views := ViewsOf(engine, moments, r.filter, QueryText(r.q),
                                 FirstMode(engine, moments[0], r.filter, r.q));
            && ListedIds(ClientWalk(codec, engine, moments, r)) == Ids(Concat(Walk(views, None, r.limit)))
            && (Finished(ClientWalk(codec, engine, moments, r)) <==> Completed(views, None, r.limit))
  {
    var mode := FirstMode(engine, moments[0], r.filter, r.q);
    ClientWalkIsKeysetWalk(codec, engine, moments, r, mode, None);
    ListedAreWalked(ClientWalk(codec, engine, moments, r),
                    Walk(ViewsOf(engine, moments, r.filter, QueryText(r.q), mode), None, r.limit));
  }

  /** And with enough pages it always finishes. */
  lemma QuietWalkFinishes(codec: Cursors.Codec, engine: Engine, moments: seq<Moment>, r: Request, m: Moment)
    requires Starts(r) && Cursors.Sound(codec)
    requires Carried(codec, engine, m.table, QueryText(r.q), FirstMode(engine, m, r.filter, r.q))
    requires moments != [] && |m.table| <= |moments| && forall i :: 0 <= i < |moments| ==> moments[i] == m
    ensures Finished(ClientWalk(codec, engine, moments, r))
  {
    var mode := FirstMode(engine, m, r.filter, r.q);
    var view := ViewAt(engine, m, r.filter, QueryText(r.q), mode);
    var views := ViewsOf(engine, moments, r.filter, QueryText(r.q), mode);
    FirstWalk(codec, engine, moments, r);
    QuietViews(engine, moments, r.filter, QueryText(r.q), mode, m);
    RemainingFits(view);
    ViewFits(view.Keys, m.table.Keys);
    PagesEnough(|Ranked(KeysOf(Remaining(view, None)))|, |moments|, r.limit);
    QuietWalkCompletes(views, view, None, r.limit);
  }

  lemma RemainingFits(view: View)
    ensures |Ranked(KeysOf(Remaining(view, None)))| == |view|
  {
    RemainingKeys(view, None);
    assert KeysOf(Remaining(view, None)) == KeysOf(view);
    var r := Ranked(KeysOf(view));
    assert |r| == |multiset(r)| == |KeysOf(view)|;
    KeysAsMany(view);
  }

  lemma {:induction false} KeysAsMany(view: View)
    ensures |KeysOf(view)| == |view|
    decreases |view|
  {
    if view != map[] {
      var id :| id in view;
      var rest := view - {id};
      assert view.Keys == rest.Keys + {id} && |view| == |view.Keys| && |rest| == |rest.Keys|;
      KeysAsMany(rest);
      assert KeysOf(view) == KeysOf(rest) + {Key(view[id], id)};
    }
  }

  lemma ViewFits(a: set<Id>, b: set<Id>)
    requires a <= b
    ensures |a| <= |b|
  {
    assert b == a + (b - a);
  }

  lemma PagesEnough(n: nat, pages: nat, limit: nat)
    requires n <= pages && limit >= 1
    ensures n <= pages * limit
  {
    assert pages * 1 <= pages * limit;
  }

  lemma WholeViewWalked(views: seq<View>, view: View, limit: nat)
    requires limit >= 1 && AllSame(views, view) && Completed(views, None, limit)
    ensures Concat(Walk(views, None, limit)) == Ranked(KeysOf(view))
  {
    QuietWalkIsTheSortedList(views, view, None, limit);
    RemainingKeys(view, None);
    assert KeysOf(Remaining(view, None)) == KeysOf(view);
  }
}
