/** What a searcher gets, told of the listings' own columns: which listings, in which order, on which page. */
module SearchResults {
  import opened Wrappers
  import opened Listings
  import opened SqlRules
  import opened Keyset
  import opened Search
  import Orders
  import Cursors

  // ---- Which listings ----

  /** Every argument given asks for this of the listing; the status asked for is active if none is given. */
  lemma SelectedIs(engine: Engine, f: Filter, q: string, mode: Mode, row: Row, now: Time)
    ensures Selected(engine, f, q, mode, row, now) <==>
            && row.status == (if f.status.Some? then f.status.value else Active)
            && (row.isTest ==> f.includeTest)
            && (f.listingType.Some? ==> row.content.listingType == f.listingType.value)
            && (f.taskCategories == [] || exists c <- f.taskCategories :: c in row.content.taskCategories)
            && (f.claimed.Some? ==> row.claimed == f.claimed.value)
            && (f.paymentNetwork.Some? || f.maxPrice.Some? ==>
                  exists p <- row.content.paymentOptions ::
                    && (f.paymentNetwork.Some? ==> p.network == f.paymentNetwork.value)
                    && (f.maxPrice.Some? ==>
                          && p.amount.Some? && p.amount.value <= f.maxPrice.value
                          && exists coin <- engine.stablecoins :: coin.0 == p.network
                               && Lower(coin.1) == Lower(p.asset)))
            && (f.hasTemplate.Some? ==> row.content.outputSchema.Some? == f.hasTemplate.value)
            && (f.stale.Some? ==>
                  (row.missingSince.Some? || now - LastActivity(row) > engine.staleAfter) == f.stale.value)
            && (mode == ByRank ==> engine.fullText(row.content, q))
            && (mode == BySimilarity ==> engine.trigramAvailable && engine.similar(row.content, q))
  { }

  lemma RowsAreInView(v: View, cursor: Option<Key>, offset: nat, limit: nat)
    ensures forall k <- PageOf(v, cursor, offset, limit).rows :: k.id in v && k.value == v[k.id]
    ensures forall i, j :: 0 <= i < j < |PageOf(v, cursor, offset, limit).rows| ==>
              Below(PageOf(v, cursor, offset, limit).rows[j], PageOf(v, cursor, offset, limit).rows[i])
  {
    var keys := KeysOf(Remaining(v, cursor));
    var r, rows := Ranked(keys), PageOf(v, cursor, offset, limit).rows;
    RankedDistinct(keys);
    RemainingKeys(v, cursor);
    assert forall i :: 0 <= i < |rows| ==> offset + i < |r| && rows[i] == r[offset + i];
    forall k | k in rows ensures k.id in v && k.value == v[k.id] {
      assert k in r;
    }
  }

  /** The mode a page is found in: its cursor's, or the one the first page chooses. */
  ghost function ModeFor(codec: Cursors.Codec, engine: Engine, m: Moment, r: Request): Mode {
    var c := codec.resolve(r.cursor, r.q);
    if c.Ok? && c.value.Some? then ModeOf(c.value.value) else FirstMode(engine, m, r.filter, r.q)
  }

  lemma PageIs(codec: Cursors.Codec, engine: Engine, m: Moment, r: Request)
    requires SearchListings(codec, engine, m, r).Ok?
    ensures r.limit >= 1 && r.offset >= 0 && codec.resolve(r.cursor, r.q).Ok?
    ensures var page, c := SearchListings(codec, engine, m, r).value, codec.resolve(r.cursor, r.q).value;
            var view := ViewAt(engine, m, r.filter, QueryText(r.q), ModeFor(codec, engine, m, r));
            var key := if c.Some? then Some(KeyOf(c.value)) else None;
            page.ids == Ids(PageOf(view, key, r.offset, r.limit).rows) && page.total == |view|
  { }

  /** A request is refused exactly for an argument out of bounds, a cursor with an offset, or a cursor not its own. */
  lemma RefusedIff(codec: Cursors.Codec, engine: Engine, m: Moment, r: Request)
    ensures SearchListings(codec, engine, m, r).Err? <==>
            || r.limit < 1 || r.limit > 100 || r.offset < 0
            || (r.filter.listingType.Some? && |r.filter.listingType.value| > 50)
            || (r.q.Some? && |r.q.value| > 200)
            || (r.filter.maxPrice.Some? && r.filter.maxPrice.value < 0.0)
            || (r.cursor.Some? && (r.offset != 0 || |r.cursor.value| > 512))
            || codec.resolve(r.cursor, r.q).Err?
  { }

  /**
   Whatever page is asked for, in whatever mode: it lists at most `limit` and at most 100 listings, each
   once and each one the filter selects, and its total is the number the filter selects.
   */
  lemma PageListsSelected(codec: Cursors.Codec, engine: Engine, m: Moment, r: Request)
    requires SearchListings(codec, engine, m, r).Ok?
    ensures var page, mode := SearchListings(codec, engine, m, r).value, ModeFor(codec, engine, m, r);
            && |page.ids| <= r.limit <= 100
            && (forall i, j :: 0 <= i < j < |page.ids| ==> page.ids[i] != page.ids[j])
            && (forall id <- page.ids ::
                  id in m.table && Selected(engine, r.filter, QueryText(r.q), mode, m.table[id], m.now))
            && page.total == |set id | id in m.table
                                       && Selected(engine, r.filter, QueryText(r.q), mode, m.table[id], m.now)|
  {
    PageIs(codec, engine, m, r);
    var view := ViewAt(engine, m, r.filter, QueryText(r.q), ModeFor(codec, engine, m, r));
    var c := codec.resolve(r.cursor, r.q).value;
    var key := if c.Some? then Some(KeyOf(c.value)) else None;
    PageListsView(view, key, r.offset, r.limit);
    assert view.Keys == set id | id in m.table && Selected(engine, r.filter, QueryText(r.q),
                                                           ModeFor(codec, engine, m, r), m.table[id], m.now);
    assert |view| == |view.Keys|;
  }

  lemma PageListsView(v: View, key: Option<Key>, offset: nat, limit: nat)
    ensures var ids := Ids(PageOf(v, key, offset, limit).rows);
            && |ids| <= limit && (forall id <- ids :: id in v)
            && (forall i, j :: 0 <= i < j < |ids| ==> ids[i] != ids[j])
  {
    var rows := PageOf(v, key, offset, limit).rows;
    RowsAreInView(v, key, offset, limit);
    forall i, j | 0 <= i < j < |rows| ensures rows[i].id != rows[j].id {
      assert rows[i] in rows && rows[j] in rows;
      BelowTotal(rows[i], rows[j]);
    }
  }

  /** A listing found under a price cap can be paid within it, in a stablecoin, on the network asked for. */
  lemma ListedIsWithinPrice(codec: Cursors.Codec, engine: Engine, m: Moment, r: Request, id: Id)
    returns (p: PaymentOption)
    requires SearchListings(codec, engine, m, r).Ok? && id in SearchListings(codec, engine, m, r).value.ids
    requires r.filter.maxPrice.Some?
    ensures id in m.table && p in m.table[id].content.paymentOptions
    ensures p.amount.Some? && p.amount.value <= r.filter.maxPrice.value
    ensures r.filter.paymentNetwork.Some? ==> p.network == r.filter.paymentNetwork.value
    ensures exists coin <- engine.stablecoins :: coin.0 == p.network && Lower(coin.1) == Lower(p.asset)
  {
    PageListsSelected(codec, engine, m, r);
    var f, row := r.filter, m.table[id];
    SelectedIs(engine, f, QueryText(r.q), ModeFor(codec, engine, m, r), row, m.now);
    p :|
      && p in row.content.paymentOptions
      && (f.paymentNetwork.Some? ==> p.network == f.paymentNetwork.value)
      && p.amount.Some? && p.amount.value <= f.maxPrice.value
      && exists coin <- engine.stablecoins :: coin.0 == p.network && Lower(coin.1) == Lower(p.asset);
  }

  /** Raising the cap, or dropping it, loses no listing in any mode. */
  lemma HigherCapLosesNothing(engine: Engine, m: Moment, f: Filter, q: string, mode: Mode, cap: real,
                              higher: Option<real>)
    requires f.maxPrice == Some(cap) && (higher.Some? ==> cap <= higher.value)
    ensures ViewAt(engine, m, f, q, mode).Keys <= ViewAt(engine, m, f.(maxPrice := higher), q, mode).Keys
  {
    forall id | id in ViewAt(engine, m, f, q, mode)
      ensures Selected(engine, f.(maxPrice := higher), q, mode, m.table[id], m.now)
    {
      assert MatchesPayment(engine, f, m.table[id]);
    }
  }

  /** Without a query a search is a browse; with one it ranks by full text exactly if that finds a listing. */
  lemma FirstModeIs(engine: Engine, m: Moment, f: Filter, q: Option<string>)
    ensures var searching := q.Some? && q.value != "";
            && (FirstMode(engine, m, f, q) == ByActivity <==> !searching)
            && (FirstMode(engine, m, f, q) == ByRank <==>
                  searching && exists id :: id in m.table && Matches(engine, f, m.table[id], m.now)
                                            && engine.fullText(m.table[id].content, q.value))
  {
    if Cursors.Searching(q) {
      var ranked := ViewAt(engine, m, f, q.value, ByRank);
      assert |ranked| == |ranked.Keys|;
      if id :|
        && id in m.table && Matches(engine, f, m.table[id], m.now)
        && engine.fullText(m.table[id].content, q.value)
      {
        assert id in ranked;
      }
      if |ranked| > 0 {
        var id :| id in ranked;
      }
    }
  }

  // ---- In which order ----

  /** What the mode puts first: the latest activity, the best rank, the closest text. */
  function Worth(engine: Engine, q: string, mode: Mode, row: Row): real {
    if mode == ByActivity then
      (if row.lastSeenAt.Some? && row.lastSeenAt.value > row.createdAt && row.lastSeenAt.value > row.updatedAt
       then row.lastSeenAt.value
       else if row.updatedAt > row.createdAt then row.updatedAt
       else row.createdAt) as real
    else if mode == ByRank then engine.rank(row.content, q)
    else engine.similarity(row.content, q)
  }

  /** On every page the better comes before the worse, and of two alike the one with the later id. */
  lemma PageIsInOrder(codec: Cursors.Codec, engine: Engine, m: Moment, r: Request, i: nat, j: nat)
    requires SearchListings(codec, engine, m, r).Ok? && i < j < |SearchListings(codec, engine, m, r).value.ids|
    ensures var ids, mode := SearchListings(codec, engine, m, r).value.ids, ModeFor(codec, engine, m, r);
            && ids[i] in m.table && ids[j] in m.table
            && var a := Worth(engine, QueryText(r.q), mode, m.table[ids[i]]);
               var b := Worth(engine, QueryText(r.q), mode, m.table[ids[j]]);
               a > b || (a == b && ids[i] != ids[j] && Orders.TextLeq(ids[j], ids[i]))
  {
    PageIs(codec, engine, m, r);
    var view := ViewAt(engine, m, r.filter, QueryText(r.q), ModeFor(codec, engine, m, r));
    var c := codec.resolve(r.cursor, r.q).value;
    var key := if c.Some? then Some(KeyOf(c.value)) else None;
    var rows := PageOf(view, key, r.offset, r.limit).rows;
    RowsAreInView(view, key, r.offset, r.limit);
    assert rows[i] in rows && rows[j] in rows && Below(rows[j], rows[i]);
    SortValueIsWorth(engine, QueryText(r.q), ModeFor(codec, engine, m, r), m.table[rows[i].id]);
    SortValueIsWorth(engine, QueryText(r.q), ModeFor(codec, engine, m, r), m.table[rows[j].id]);
  }

  lemma SortValueIsWorth(engine: Engine, q: string, mode: Mode, row: Row)
    ensures SortValue(engine, q, mode, row) == Worth(engine, q, mode, row)
  { }

  // ---- On which page ----

  /** The pages of a view at offsets 0, limit, 2 * limit and so on. */
  ghost function PagesByOffset(v: View, limit: nat, pages: nat): seq<seq<Key>> {
    seq(pages, i requires 0 <= i < pages => PageOf(v, None, i * limit, limit).rows)
  }

  lemma OffsetPage(v: View, offset: nat, limit: nat)
    ensures var r := Ranked(KeysOf(v));
            PageOf(v, None, offset, limit).rows == Take(Drop(r, offset), limit)
  {
    assert Remaining(v, None) == v;
  }

  lemma TakeMore<T>(s: seq<T>, n: nat, limit: nat)
    ensures Take(s, n) + Take(Drop(s, n), limit) == Take(s, n + limit)
  { }

  lemma {:induction false} ConcatMore<T>(pages: seq<seq<T>>, last: seq<T>)
    ensures Concat(pages + [last]) == Concat(pages) + last
  {
    if pages == [] {
      assert [] + [last] == [last];
    } else {
      assert (pages + [last])[1..] == pages[1..] + [last];
      ConcatMore(pages[1..], last);
    }
  }

  lemma PagesMore(v: View, limit: nat, pages: nat)
    ensures PagesByOffset(v, limit, pages + 1)
         == PagesByOffset(v, limit, pages) + [PageOf(v, None, pages * limit, limit).rows]
  { }

  /** On an unchanged table the pages at offsets 0, limit, 2 * limit ... join to the ranked list, cut where they end. */
  lemma {:induction false} OffsetPagesJoin(v: View, limit: nat, pages: nat)
    ensures Concat(PagesByOffset(v, limit, pages)) == Take(Ranked(KeysOf(v)), pages * limit)
  {
    if pages > 0 {
      OffsetPagesJoin(v, limit, pages - 1);
      PagesMore(v, limit, pages - 1);
      ConcatMore(PagesByOffset(v, limit, pages - 1), PageOf(v, None, (pages - 1) * limit, limit).rows);
      OffsetPage(v, (pages - 1) * limit, limit);
      TakeMore(Ranked(KeysOf(v)), (pages - 1) * limit, limit);
      assert (pages - 1) * limit + limit == pages * limit;
    }
  }

  /** What the API lists at offset `i * limit`, without a cursor. */
  ghost function ListedByOffset(codec: Cursors.Codec, engine: Engine, m: Moment, r: Request, pages: nat): seq<Id> {
    if pages == 0 then []
    else
      var page := SearchListings(codec, engine, m, r.(cursor := None, offset := (pages - 1) * r.limit));
      ListedByOffset(codec, engine, m, r, pages - 1) + if page.Ok? then page.value.ids else []
  }

  lemma IdsJoin(a: seq<Key>, b: seq<Key>)
    ensures Ids(a + b) == Ids(a) + Ids(b)
  { }

  lemma OffsetPageThroughApi(codec: Cursors.Codec, engine: Engine, m: Moment, r: Request, offset: nat)
    requires Starts(r) && Cursors.Sound(codec)
    ensures var view := ViewAt(engine, m, r.filter, QueryText(r.q), FirstMode(engine, m, r.filter, r.q));
            var page := SearchListings(codec, engine, m, r.(cursor := None, offset := offset));
            page.Ok? && page.value.ids == Ids(PageOf(view, None, offset, r.limit).rows)
  {
    assert Check(r.(cursor := None, offset := offset)).None?;
  }

  lemma {:induction false} OffsetPagesThroughApi(codec: Cursors.Codec, engine: Engine, m: Moment, r: Request,
                                                 pages: nat)
    requires Starts(r) && Cursors.Sound(codec)
    ensures var view := ViewAt(engine, m, r.filter, QueryText(r.q), FirstMode(engine, m, r.filter, r.q));
            ListedByOffset(codec, engine, m, r, pages) == Ids(Concat(PagesByOffset(view, r.limit, pages)))
  {
    if pages > 0 {
      var view := ViewAt(engine, m, r.filter, QueryText(r.q), FirstMode(engine, m, r.filter, r.q));
      var last := PageOf(view, None, (pages - 1) * r.limit, r.limit).rows;
      OffsetPagesThroughApi(codec, engine, m, r, pages - 1);
      OffsetPageThroughApi(codec, engine, m, r, (pages - 1) * r.limit);
      PagesMore(view, r.limit, pages - 1);
      ConcatMore(PagesByOffset(view, r.limit, pages - 1), last);
      IdsJoin(Concat(PagesByOffset(view, r.limit, pages - 1)), last);
    }
  }

  /**
   Paging by offset through the API, in any of the three modes: enough pages of an unchanged table are
   the ranked result, which following cursors lists too.
   */
  lemma OffsetsListEverything(codec: Cursors.Codec, engine: Engine, m: Moment, r: Request, pages: nat)
    requires Starts(r) && Cursors.Sound(codec)
    requires var view := ViewAt(engine, m, r.filter, QueryText(r.q), FirstMode(engine, m, r.filter, r.q));
             |view| <= pages * r.limit
    ensures ListedByOffset(codec, engine, m, r, pages) ==
            Ids(Ranked(KeysOf(ViewAt(engine, m, r.filter, QueryText(r.q), FirstMode(engine, m, r.filter, r.q)))))
  {
    var view := ViewAt(engine, m, r.filter, QueryText(r.q), FirstMode(engine, m, r.filter, r.q));
    OffsetPagesThroughApi(codec, engine, m, r, pages);
    OffsetPagesJoin(view, r.limit, pages);
    RemainingFits(view);
    assert Remaining(view, None) == view;
  }
}
