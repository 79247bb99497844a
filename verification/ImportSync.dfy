/**
 The import sync: validate a batch, plan it against the database, count what it would do, and do
 it: every upsert first, the stale marking only then.
 */
module ImportSync {
  import opened Wrappers
  import opened Listings
  import opened Statements
  import opened Database
  import opened Batches
  import opened SyncRuns
  import opened SyncLaws

  datatype SyncPlan = SyncPlan(
    rows: seq<ImportRow>, rejected: seq<Rejection>, importable: seq<ImportRow>, skipped: seq<ImportRow>,
    duplicates: nat, bySource: map<string, seq<ImportRow>>, sources: set<string>,
    wouldMark: map<string, set<Id>>, markMissing: bool)

  datatype Counts = Counts(added: nat, updated: nat, claimedKept: nat, stale: nat)

  datatype SyncOutcome = SyncOutcome(inserted: seq<Row>, updated: seq<Row>, newlyMissing: set<Id>)

  // ---- What a batch comes to ----

  function SyncSources(rows: seq<ImportRow>, source: Option<string>, allowEmptySync: bool): set<string> {
    SourcesOf(rows) + if source.Some? && source.value != "" && allowEmptySync then {source.value} else {}
  }

  /** The writes a batch asks for, planned with these ids at this time. */
  ghost function WritesOf(norm: string -> string, records: seq<Record>, source: Option<string>, ids: seq<Id>, now: Time,
                          blocked: set<SourceKey>, allowEmptySync: bool, markMissing: bool): seq<Write>
    requires |ids| == |records|
  {
    var rows := ValidRows(records, source, ids, now);
    var order := SortedTexts(SyncSources(rows, source, allowEmptySync));
    PlanWrites(norm, rows, Importable(norm, rows, blocked, order), order, markMissing, now)
  }

  ghost predicate ClaimedAt(t: Table, k: SourceKey) {
    exists id :: id in t && At(t, id, k) && t[id].claimed
  }

  /** Every listing a marking of these sources would reach. */
  function MissingIds(norm: string -> string, t: Table, rows: seq<ImportRow>, sources: set<string>): set<Id> {
    set id | id in t && t[id].source.Some? && t[id].source.value in sources
             && Vanished(t[id], t[id].source.value, Seen(norm, rows, t[id].source.value))
  }

  /** What a plan will have done, told from the table before it. */
  ghost function CountsOf(norm: string -> string, t: Table, rows: seq<ImportRow>, importable: seq<ImportRow>,
                          sources: set<string>, markMissing: bool): Counts {
    Counts(|New(norm, t, importable)|, |Old(norm, t, importable)|, |Kept(norm, t, importable)|,
           if markMissing then |MissingIds(norm, t, rows, sources)| else 0)
  }

  /** Rows whose endpoint the table does not have, has, and has claimed. */
  ghost function New(norm: string -> string, t: Table, rows: seq<ImportRow>): seq<ImportRow> {
    Pick(rows, (r: ImportRow) => !Known(t, KeyOf(norm, r)))
  }

  ghost function Old(norm: string -> string, t: Table, rows: seq<ImportRow>): seq<ImportRow> {
    Pick(rows, (r: ImportRow) => Known(t, KeyOf(norm, r)))
  }

  ghost function Kept(norm: string -> string, t: Table, rows: seq<ImportRow>): seq<ImportRow> {
    Pick(rows, (r: ImportRow) => ClaimedAt(t, KeyOf(norm, r)))
  }

  lemma OneRowMore(norm: string -> string, t: Table, rows: seq<ImportRow>, i: nat)
    requires i < |rows|
    ensures var k := KeyOf(norm, rows[i]);
            && |New(norm, t, rows[..i + 1])| == |New(norm, t, rows[..i])| + (if Known(t, k) then 0 else 1)
            && |Old(norm, t, rows[..i + 1])| == |Old(norm, t, rows[..i])| + (if Known(t, k) then 1 else 0)
            && |Kept(norm, t, rows[..i + 1])| == |Kept(norm, t, rows[..i])| + (if ClaimedAt(t, k) then 1 else 0)
  {
    assert rows[..i + 1][..i] == rows[..i];
  }

  /** A plan is what planning its rows against `t` and these blocked endpoints yields. */
  ghost predicate IsPlan(norm: string -> string, t: Table, blocked: set<SourceKey>, plan: SyncPlan) {
    && SourcesOf(plan.rows) <= plan.sources
    && plan.importable == Importable(norm, plan.rows, blocked, SortedTexts(plan.sources))
    && multiset(plan.skipped) == multiset(Blocked(norm, plan.rows, blocked))
    && |plan.rows| == |plan.importable| + |plan.skipped| + plan.duplicates
    && plan.bySource.Keys == SourcesOf(plan.rows)
    && (forall s :: s in plan.bySource ==> plan.bySource[s] == RowsOf(plan.rows, s))
    && plan.wouldMark.Keys == plan.sources
    && (forall s :: s in plan.sources ==>
          plan.wouldMark[s] == if plan.markMissing then VanishedIds(t, s, Seen(norm, plan.rows, s)) else {})
  }

  // ---- Validation ----

  method ValidateAll(records: seq<Record>, source: Option<string>, ids: seq<Id>, now: Time)
    returns (rows: seq<ImportRow>, rejected: seq<Rejection>)
    requires |ids| == |records|
    ensures rows == ValidRows(records, source, ids, now)
    ensures rejected == Rejections(records, source)
    ensures |rows| + |rejected| == |records|
  {
    rows, rejected := [], [];
    for i := 0 to |records|
      invariant rows == ValidRows(records[..i], source, ids[..i], now)
      invariant rejected == Rejections(records[..i], source)
    {
      var row := BuildRow(records[i], source, ids[i], now);
      OneRecordMore(records, source, ids, now, i);
      if row.Err? {
        rejected := rejected + [Rejection(i, row.error)];
        continue;
      }
      rows := rows + [row.value];
    }
    assert records[..|records|] == records && ids[..|records|] == ids;
    EveryRecordIsValidOrRejected(records, source, ids, now);
  }

  lemma OneRecordMore(records: seq<Record>, source: Option<string>, ids: seq<Id>, now: Time, i: nat)
    requires |ids| == |records| && i < |records|
    ensures var row := BuildRow(records[i], source, ids[i], now);
            && ValidRows(records[..i + 1], source, ids[..i + 1], now)
               == ValidRows(records[..i], source, ids[..i], now) + (if row.Ok? then [row.value] else [])
            && Rejections(records[..i + 1], source)
               == Rejections(records[..i], source) + (if row.Err? then [Rejection(i, row.error)] else [])
  {
    var row := BuildRow(records[i], source, ids[i], now);
    assert records[..i + 1][..i] == records[..i] && ids[..i + 1][..i] == ids[..i];
    assert row.Err? ==> BuildRow(records[i], source, "", 0) == Err(row.error);
    assert row.Ok? == BuildRow(records[i], source, "", 0).Ok?;
  }

  // ---- Planning ----

  function Urls(rows: seq<ImportRow>): seq<string> {
    seq(|rows|, i requires 0 <= i < |rows| => rows[i].content.endpointUrl)
  }

  lemma UrlsAreSeen(norm: string -> string, rows: seq<ImportRow>, source: string)
    ensures var urls := Urls(RowsOf(rows, source));
            (set i | 0 <= i < |urls| :: norm(urls[i])) == Seen(norm, rows, source)
  {
    var own := RowsOf(rows, source);
    var urls := Urls(own);
    forall r | r in rows && r.source == source
      ensures norm(r.content.endpointUrl) in set i | 0 <= i < |urls| :: norm(urls[i])
    {
      var i :| 0 <= i < |own| && own[i] == r;
      assert urls[i] == r.content.endpointUrl;
    }
    forall i | 0 <= i < |urls| ensures norm(urls[i]) in Seen(norm, rows, source) {
      assert own[i] in rows && own[i].source == source;
    }
  }

  /** The rows of each source, in batch order. */
  method GroupBySource(rows: seq<ImportRow>) returns (groups: map<string, seq<ImportRow>>)
    ensures groups.Keys == SourcesOf(rows)
    ensures forall s :: s in groups ==> groups[s] == RowsOf(rows, s)
  {
    groups := map[];
    for i := 0 to |rows|
      invariant groups.Keys == SourcesOf(rows[..i])
      invariant forall s :: s in groups ==> groups[s] == RowsOf(rows[..i], s)
    {
      assert rows[..i + 1][..i] == rows[..i] && rows[..i + 1] == rows[..i] + [rows[i]];
      var s := rows[i].source;
      if s !in groups { NoRows(rows[..i], s); }
      groups := groups[s := (if s in groups then groups[s] else []) + [rows[i]]];
    }
    assert rows[..|rows|] == rows;
  }

  method SortTexts(s: set<string>) returns (r: seq<string>)
    ensures r == SortedTexts(s)
  {
    var items, rest := [], s;
    while rest != {}
      invariant multiset(items) + multiset(rest) == multiset(s)
      decreases |rest|
    {
      var x :| x in rest;
      items, rest := items + [x], rest - {x};
    }
    r := Orders.Sort(items, Orders.TextLeq);
    SortIsSortedTexts(items, s);
  }

  function Values(order: seq<string>, latest: map<string, ImportRow>): seq<ImportRow>
    requires forall k <- order :: k in latest
  {
    seq(|order|, i requires 0 <= i < |order| => latest[order[i]])
  }

  /** `order` and `latest` are the keys and the values of a dictionary of one source's rows. */
  ghost predicate IsDict(norm: string -> string, src: string, order: seq<string>, latest: map<string, ImportRow>) {
    && (forall k :: k in order <==> k in latest)
    && (forall a, b :: 0 <= a < b < |order| ==> order[a] != order[b])
    && (forall k :: k in latest ==> KeyOf(norm, latest[k]) == (src, k))
  }

  lemma AssignKnown(norm: string -> string, src: string, order: seq<string>, latest: map<string, ImportRow>,
                    row: ImportRow)
    requires IsDict(norm, src, order, latest) && row.source == src && norm(row.content.endpointUrl) in latest
    ensures var after := latest[norm(row.content.endpointUrl) := row];
            IsDict(norm, src, order, after) && Values(order, after) == Place(norm, Values(order, latest), row)
  {
    var key, before := norm(row.content.endpointUrl), Values(order, latest);
    var j :| 0 <= j < |order| && order[j] == key;
    assert DistinctKeys(norm, before) && KeyOf(norm, before[j]) == KeyOf(norm, row);
    PlaceKnown(norm, before, row, j);
    assert Values(order, latest[key := row]) == before[j := row];
  }

  lemma AssignNew(norm: string -> string, src: string, order: seq<string>, latest: map<string, ImportRow>,
                  row: ImportRow)
    requires IsDict(norm, src, order, latest) && row.source == src && norm(row.content.endpointUrl) !in latest
    ensures var key := norm(row.content.endpointUrl);
            IsDict(norm, src, order + [key], latest[key := row])
            && Values(order + [key], latest[key := row]) == Place(norm, Values(order, latest), row)
  {
    var key, before := norm(row.content.endpointUrl), Values(order, latest);
    PlaceNew(norm, before, row);
    assert Values(order + [key], latest[key := row]) == before + [row];
  }

  lemma OneRowCollapses(norm: string -> string, rows: seq<ImportRow>, i: nat, blocked: set<SourceKey>)
    requires i < |rows|
    ensures KeyOf(norm, rows[i]) in blocked ==>
              Collapse(norm, rows[..i + 1], blocked) == Collapse(norm, rows[..i], blocked)
              && Blocked(norm, rows[..i + 1], blocked) == Blocked(norm, rows[..i], blocked) + [rows[i]]
    ensures KeyOf(norm, rows[i]) !in blocked ==>
              Collapse(norm, rows[..i + 1], blocked) == Place(norm, Collapse(norm, rows[..i], blocked), rows[i])
              && Blocked(norm, rows[..i + 1], blocked) == Blocked(norm, rows[..i], blocked)
  {
    assert rows[..i + 1][..i] == rows[..i];
  }

  ghost predicate Collapsed(norm: string -> string, src: string, rows: seq<ImportRow>, blocked: set<SourceKey>,
                            order: seq<string>, latest: map<string, ImportRow>, skipped: seq<ImportRow>) {
    && IsDict(norm, src, order, latest)
    && Values(order, latest) == Collapse(norm, rows, blocked)
    && skipped == Blocked(norm, rows, blocked)
  }

  lemma CollapsedAside(norm: string -> string, src: string, rows: seq<ImportRow>, i: nat, blocked: set<SourceKey>,
                       order: seq<string>, latest: map<string, ImportRow>, skipped: seq<ImportRow>)
    requires i < |rows| && Collapsed(norm, src, rows[..i], blocked, order, latest, skipped)
    requires KeyOf(norm, rows[i]) in blocked
    ensures Collapsed(norm, src, rows[..i + 1], blocked, order, latest, skipped + [rows[i]])
  {
    OneRowCollapses(norm, rows, i, blocked);
  }

  lemma CollapsedAgain(norm: string -> string, src: string, rows: seq<ImportRow>, i: nat, blocked: set<SourceKey>,
                       order: seq<string>, latest: map<string, ImportRow>, skipped: seq<ImportRow>)
    requires i < |rows| && rows[i].source == src && Collapsed(norm, src, rows[..i], blocked, order, latest, skipped)
    requires KeyOf(norm, rows[i]) !in blocked && norm(rows[i].content.endpointUrl) in latest
    ensures Collapsed(norm, src, rows[..i + 1], blocked, order, latest[norm(rows[i].content.endpointUrl) := rows[i]],
                      skipped)
  {
    OneRowCollapses(norm, rows, i, blocked);
    AssignKnown(norm, src, order, latest, rows[i]);
  }

  lemma CollapsedMore(norm: string -> string, src: string, rows: seq<ImportRow>, i: nat, blocked: set<SourceKey>,
                      order: seq<string>, latest: map<string, ImportRow>, skipped: seq<ImportRow>)
    requires i < |rows| && rows[i].source == src && Collapsed(norm, src, rows[..i], blocked, order, latest, skipped)
    requires KeyOf(norm, rows[i]) !in blocked && norm(rows[i].content.endpointUrl) !in latest
    ensures var key := norm(rows[i].content.endpointUrl);
            Collapsed(norm, src, rows[..i + 1], blocked, order + [key], latest[key := rows[i]], skipped)
  {
    OneRowCollapses(norm, rows, i, blocked);
    AssignNew(norm, src, order, latest, rows[i]);
  }

  lemma NothingCollapsed(norm: string -> string, src: string, rows: seq<ImportRow>, blocked: set<SourceKey>)
    ensures Collapsed(norm, src, rows[..0], blocked, [], map[], [])
  { }

  /** The keys looked up tell which of the source's rows are blocked. */
  ghost predicate Sorts(norm: string -> string, src: string, keys: set<string>, blocked: set<SourceKey>, r: ImportRow) {
    r.source == src && (norm(r.content.endpointUrl) in keys <==> (src, norm(r.content.endpointUrl)) in blocked)
  }

  /** `latest[key] = row` in a dictionary that remembers its order, and whether the key was there. */
  method Assign(norm: string -> string, src: string, rows: seq<ImportRow>, i: nat, ghost blocked: set<SourceKey>,
                order: seq<string>, latest: map<string, ImportRow>, ghost skipped: seq<ImportRow>)
    returns (order': seq<string>, latest': map<string, ImportRow>, again: bool)
    requires i < |rows| && rows[i].source == src && Collapsed(norm, src, rows[..i], blocked, order, latest, skipped)
    requires KeyOf(norm, rows[i]) !in blocked
    ensures Collapsed(norm, src, rows[..i + 1], blocked, order', latest', skipped)
    ensures |order'| == if again then |order| else |order| + 1
  {
    var key := norm(rows[i].content.endpointUrl);
    again, order', latest' := key in latest, order, latest[key := rows[i]];
    if again {
      CollapsedAgain(norm, src, rows, i, blocked, order, latest, skipped);
    } else {
      CollapsedMore(norm, src, rows, i, blocked, order, latest, skipped);
      order' := order + [key];
    }
  }

  /** One source's rows: blocked ones set aside, of the others the last one of each endpoint kept. */
  method CollapseSource(norm: string -> string, rows: seq<ImportRow>, src: string, keys: set<string>,
                        ghost blocked: set<SourceKey>)
    returns (kept: seq<ImportRow>, skipped: seq<ImportRow>, duplicates: nat)
    requires forall i :: 0 <= i < |rows| ==> Sorts(norm, src, keys, blocked, rows[i])
    ensures kept == Collapse(norm, rows, blocked)
    ensures skipped == Blocked(norm, rows, blocked)
    ensures |rows| == |kept| + |skipped| + duplicates
  {
    var order: seq<string>, latest: map<string, ImportRow> := [], map[];
    skipped, duplicates := [], 0;
    NothingCollapsed(norm, src, rows, blocked);
    for i := 0 to |rows|
      invariant Collapsed(norm, src, rows[..i], blocked, order, latest, skipped)
      invariant i == |order| + |skipped| + duplicates
    {
      var row := rows[i];
      assert Sorts(norm, src, keys, blocked, row);
      var key := norm(row.content.endpointUrl);
      if key in keys {
        CollapsedAside(norm, src, rows, i, blocked, order, latest, skipped);
        skipped := skipped + [row];
        continue;
      }
      var again;
      order, latest, again := Assign(norm, src, rows, i, blocked, order, latest, skipped);
      if again { duplicates := duplicates + 1; }
    }
    assert rows[..|rows|] == rows;
    kept := Values(order, latest);
  }

  /** One source's share of a plan, read from the database. */
  method PlanSource(db: Database, rows: seq<ImportRow>, own: seq<ImportRow>, src: string, markMissing: bool)
    returns (kept: seq<ImportRow>, skipped: seq<ImportRow>, duplicates: nat, would: set<Id>)
    requires own == RowsOf(rows, src)
    ensures kept == Collapse(db.norm, own, db.doNotImport.Keys)
    ensures skipped == Blocked(db.norm, own, db.doNotImport.Keys)
    ensures |own| == |kept| + |skipped| + duplicates
    ensures would == if markMissing then VanishedIds(db.listings, src, Seen(db.norm, rows, src)) else {}
  {
    var urls := Urls(own);
    var keys := db.DoNotImportKeys(src, urls);
    forall i | 0 <= i < |own| ensures Sorts(db.norm, src, keys, db.doNotImport.Keys, own[i]) {
      assert own[i] in own && db.norm(urls[i]) == db.norm(own[i].content.endpointUrl);
    }
    kept, skipped, duplicates := CollapseSource(db.norm, own, src, keys, db.doNotImport.Keys);
    UrlsAreSeen(db.norm, rows, src);
    would := {};
    if markMissing { would := db.PreviewMissing(src, urls); }
  }

  /** The rows of a plan for the sources of `order` alone. */
  ghost predicate Covers(norm: string -> string, blocked: set<SourceKey>, rows: seq<ImportRow>, order: seq<string>,
                         importable: seq<ImportRow>, skipped: seq<ImportRow>, duplicates: nat) {
    && importable == Importable(norm, rows, blocked, order)
    && multiset(skipped) == multiset(BlockedOf(norm, rows, blocked, order))
    && |importable| + |skipped| + duplicates == |OfSources(rows, order)|
  }

  lemma CoversOneMore(norm: string -> string, blocked: set<SourceKey>, rows: seq<ImportRow>, order: seq<string>,
                      importable: seq<ImportRow>, skipped: seq<ImportRow>, duplicates: nat,
                      src: string, kept: seq<ImportRow>, aside: seq<ImportRow>, extra: nat)
    requires Covers(norm, blocked, rows, order, importable, skipped, duplicates) && src !in order
    requires kept == Collapse(norm, RowsOf(rows, src), blocked) && aside == Blocked(norm, RowsOf(rows, src), blocked)
    requires |RowsOf(rows, src)| == |kept| + |aside| + extra
    ensures Covers(norm, blocked, rows, order + [src], importable + kept, skipped + aside, duplicates + extra)
  {
    OneMoreSource(norm, rows, blocked, order, src);
    ImportableMore(norm, rows, blocked, order, src);
    assert multiset(skipped + aside) == multiset(skipped) + multiset(aside);
  }

  /** The marks of a plan for the sources of `order` alone. */
  ghost predicate Previews(norm: string -> string, t: Table, rows: seq<ImportRow>, order: seq<string>,
                           markMissing: bool, wouldMark: map<string, set<Id>>) {
    && wouldMark.Keys == SetOf(order)
    && (forall s :: s in wouldMark ==>
            wouldMark[s] == if markMissing then VanishedIds(t, s, Seen(norm, rows, s)) else {})
  }

  lemma ImportableMore(norm: string -> string, rows: seq<ImportRow>, blocked: set<SourceKey>, order: seq<string>,
                       src: string)
    ensures Importable(norm, rows, blocked, order + [src])
         == Importable(norm, rows, blocked, order) + Collapse(norm, RowsOf(rows, src), blocked)
  {
    assert (order + [src])[..|order|] == order;
  }

  lemma PreviewsOneMore(norm: string -> string, t: Table, rows: seq<ImportRow>, order: seq<string>, markMissing: bool,
                        wouldMark: map<string, set<Id>>, src: string, would: set<Id>)
    requires Previews(norm, t, rows, order, markMissing, wouldMark)
    requires would == if markMissing then VanishedIds(t, src, Seen(norm, rows, src)) else {}
    ensures Previews(norm, t, rows, order + [src], markMissing, wouldMark[src := would])
  {
    assert forall s :: s in order + [src] <==> s in order || s == src;
  }

  method PlanSources(db: Database, rows: seq<ImportRow>, bySource: map<string, seq<ImportRow>>, order: seq<string>,
                     markMissing: bool)
    returns (importable: seq<ImportRow>, skipped: seq<ImportRow>, duplicates: nat, wouldMark: map<string, set<Id>>)
    requires bySource.Keys == SourcesOf(rows) && forall s :: s in bySource ==> bySource[s] == RowsOf(rows, s)
    requires forall i, j :: 0 <= i < j < |order| ==> order[i] != order[j]
    ensures Covers(db.norm, db.doNotImport.Keys, rows, order, importable, skipped, duplicates)
    ensures Previews(db.norm, db.listings, rows, order, markMissing, wouldMark)
  {
    importable, skipped, duplicates, wouldMark := [], [], 0, map[];
    NoSourceYet(db.norm, rows, db.doNotImport.Keys);
    for i := 0 to |order|
      invariant Covers(db.norm, db.doNotImport.Keys, rows, order[..i], importable, skipped, duplicates)
      invariant Previews(db.norm, db.listings, rows, order[..i], markMissing, wouldMark)
    {
      var src := order[i];
      var own := if src in bySource then bySource[src] else [];
      if src !in bySource { NoRows(rows, src); }
      var kept, aside, extra, would := PlanSource(db, rows, own, src, markMissing);
      CoversOneMore(db.norm, db.doNotImport.Keys, rows, order[..i], importable, skipped, duplicates, src, kept, aside,
                    extra);
      PreviewsOneMore(db.norm, db.listings, rows, order[..i], markMissing, wouldMark, src, would);
      assert order[..i + 1] == order[..i] + [src];
      importable, skipped, duplicates, wouldMark := importable + kept, skipped + aside, duplicates + extra,
                                                    wouldMark[src := would];
    }
    assert order[..|order|] == order;
  }

  lemma SourcesAre(rows: seq<ImportRow>, source: Option<string>, allowEmptySync: bool, src: string)
    ensures src in SyncSources(rows, source, allowEmptySync) <==>
            (exists r <- rows :: r.source == src) || (allowEmptySync && source == Some(src) && src != "")
  { }

  /** The sources a plan syncs: those of its rows, and the caller's if it may be empty. */
  ghost predicate SyncsSources(rows: seq<ImportRow>, source: Option<string>, allowEmptySync: bool,
                               sources: set<string>) {
    forall src :: src in sources <==>
      (exists r <- rows :: r.source == src) || (allowEmptySync && source == Some(src) && src != "")
  }

  lemma SyncSourcesAre(rows: seq<ImportRow>, source: Option<string>, allowEmptySync: bool)
    ensures SyncsSources(rows, source, allowEmptySync, SyncSources(rows, source, allowEmptySync))
  {
    forall src ensures src in SyncSources(rows, source, allowEmptySync) <==>
                       (exists r <- rows :: r.source == src) || (allowEmptySync && source == Some(src) && src != "")
    {
      SourcesAre(rows, source, allowEmptySync, src);
    }
  }

  /** Reads the database and writes nothing. */
  method PlanSync(db: Database, records: seq<Record>, source: Option<string>, ids: seq<Id>, now: Time,
                  allowEmptySync: bool, markMissing: bool)
    returns (plan: SyncPlan)
    requires |ids| == |records|
    ensures IsPlan(db.norm, db.listings, db.doNotImport.Keys, plan)
    ensures plan.rows == ValidRows(records, source, ids, now) && plan.rejected == Rejections(records, source)
    ensures |plan.rows| + |plan.rejected| == |records|
    ensures SyncsSources(plan.rows, source, allowEmptySync, plan.sources)
    ensures plan.sources == SyncSources(plan.rows, source, allowEmptySync) && plan.markMissing == markMissing
  {
    var rows, rejected := ValidateAll(records, source, ids, now);
    var bySource := GroupBySource(rows);
    var sources := bySource.Keys + if source.Some? && source.value != "" && allowEmptySync then {source.value} else {};
    var order := SortTexts(sources);
    var importable, skipped, duplicates, wouldMark := PlanSources(db, rows, bySource, order, markMissing);
    plan := SyncPlan(rows, rejected, importable, skipped, duplicates, bySource, sources, wouldMark, markMissing);
    CoveringIsPlan(db.norm, db.listings, db.doNotImport.Keys, plan);
    SyncSourcesAre(rows, source, allowEmptySync);
  }

  lemma CoveringIsPlan(norm: string -> string, t: Table, blocked: set<SourceKey>, plan: SyncPlan)
    requires SourcesOf(plan.rows) <= plan.sources
    requires plan.bySource.Keys == SourcesOf(plan.rows)
    requires forall s :: s in plan.bySource ==> plan.bySource[s] == RowsOf(plan.rows, s)
    requires Covers(norm, blocked, plan.rows, SortedTexts(plan.sources), plan.importable, plan.skipped, plan.duplicates)
    requires Previews(norm, t, plan.rows, SortedTexts(plan.sources), plan.markMissing, plan.wouldMark)
    ensures IsPlan(norm, t, blocked, plan)
  {
    assert SetOf(SortedTexts(plan.sources)) == plan.sources;
    AllSources(norm, plan.rows, blocked, SortedTexts(plan.sources));
  }

  lemma NoSourceYet(norm: string -> string, rows: seq<ImportRow>, blocked: set<SourceKey>)
    ensures OfSources(rows, []) == [] && BlockedOf(norm, rows, blocked, []) == []
  {
    PickNone(rows, (r: ImportRow) => r.source in []);
    PickNone(rows, (r: ImportRow) => r.source in [] && KeyOf(norm, r) in blocked);
  }

  lemma {:induction false} PickNone(rows: seq<ImportRow>, keep: ImportRow -> bool)
    requires forall r <- rows :: !keep(r)
    ensures Pick(rows, keep) == []
  {
    if |rows| != 0 { PickNone(rows[..|rows| - 1], keep); }
  }

  function OfSources(rows: seq<ImportRow>, order: seq<string>): seq<ImportRow> {
    Pick(rows, (r: ImportRow) => r.source in order)
  }

  function BlockedOf(norm: string -> string, rows: seq<ImportRow>, blocked: set<SourceKey>,
                     order: seq<string>): seq<ImportRow> {
    Pick(rows, (r: ImportRow) => r.source in order && KeyOf(norm, r) in blocked)
  }

  lemma {:induction false} NoRows(rows: seq<ImportRow>, src: string)
    requires src !in SourcesOf(rows)
    ensures RowsOf(rows, src) == []
  {
    if |rows| != 0 {
      assert rows[|rows| - 1].source in SourcesOf(rows);
      NoRows(rows[..|rows| - 1], src);
    }
  }

  lemma {:induction false} PickPick(norm: string -> string, rows: seq<ImportRow>, blocked: set<SourceKey>, src: string)
    ensures Blocked(norm, RowsOf(rows, src), blocked)
         == Pick(rows, (r: ImportRow) => r.source == src && KeyOf(norm, r) in blocked)
  {
    if |rows| != 0 {
      var n := |rows| - 1;
      PickPick(norm, rows[..n], blocked, src);
      PickMore(RowsOf(rows[..n], src), rows[n], (r: ImportRow) => KeyOf(norm, r) in blocked);
    }
  }

  lemma PickMore(rows: seq<ImportRow>, r: ImportRow, keep: ImportRow -> bool)
    ensures Pick(rows + [r], keep) == Pick(rows, keep) + if keep(r) then [r] else []
  {
    assert (rows + [r])[..|rows|] == rows;
  }

  lemma OneMoreSource(norm: string -> string, rows: seq<ImportRow>, blocked: set<SourceKey>, order: seq<string>,
                      src: string)
    requires src !in order
    ensures |OfSources(rows, order + [src])| == |OfSources(rows, order)| + |RowsOf(rows, src)|
    ensures multiset(BlockedOf(norm, rows, blocked, order + [src]))
         == multiset(BlockedOf(norm, rows, blocked, order)) + multiset(Blocked(norm, RowsOf(rows, src), blocked))
  {
    PickSplits(rows, (r: ImportRow) => r.source in order + [src], (r: ImportRow) => r.source in order,
               (r: ImportRow) => r.source == src);
    PickSplits(rows, (r: ImportRow) => r.source in order + [src] && KeyOf(norm, r) in blocked,
               (r: ImportRow) => r.source in order && KeyOf(norm, r) in blocked,
               (r: ImportRow) => r.source == src && KeyOf(norm, r) in blocked);
    PickPick(norm, rows, blocked, src);
  }

  lemma {:induction false} PickAll(rows: seq<ImportRow>, keep: ImportRow -> bool)
    requires forall r <- rows :: keep(r)
    ensures Pick(rows, keep) == rows
  {
    if |rows| != 0 {
      PickAll(rows[..|rows| - 1], keep);
      assert rows == rows[..|rows| - 1] + [rows[|rows| - 1]];
    }
  }

  lemma AllSources(norm: string -> string, rows: seq<ImportRow>, blocked: set<SourceKey>, order: seq<string>)
    requires SourcesOf(rows) <= SetOf(order)
    ensures OfSources(rows, order) == rows
    ensures BlockedOf(norm, rows, blocked, order) == Blocked(norm, rows, blocked)
  {
    forall r <- rows ensures r.source in order { assert r.source in SourcesOf(rows); }
    PickAll(rows, (r: ImportRow) => r.source in order);
    PickSame(rows, (r: ImportRow) => r.source in order && KeyOf(norm, r) in blocked,
             (r: ImportRow) => KeyOf(norm, r) in blocked);
  }
}
