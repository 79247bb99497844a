/** Counting what a plan would do, doing it, and the request that does either. */
module ImportApply {
  import opened Wrappers
  import opened Listings
  import opened Statements
  import opened Database
  import opened Batches
  import opened SyncRuns
  import opened SyncLaws
  import opened ImportSync

  // ---- Dry run ----

  lemma OneSourceMoreMissing(norm: string -> string, t: Table, rows: seq<ImportRow>, sources: set<string>, src: string)
    requires src !in sources
    ensures MissingIds(norm, t, rows, sources + {src}) ==
            MissingIds(norm, t, rows, sources) + VanishedIds(t, src, Seen(norm, rows, src))
    ensures |MissingIds(norm, t, rows, sources + {src})| ==
            |MissingIds(norm, t, rows, sources)| + |VanishedIds(t, src, Seen(norm, rows, src))|
  {
    var a, b := MissingIds(norm, t, rows, sources), VanishedIds(t, src, Seen(norm, rows, src));
    assert MissingIds(norm, t, rows, sources + {src}) == a + b;
    assert a !! b;
  }

  /** How many listings the plan says would go missing, summed over its sources. */
  method TotalMissing(plan: SyncPlan, ghost norm: string -> string, ghost t: Table) returns (total: nat)
    requires plan.wouldMark.Keys == plan.sources
    requires forall s :: s in plan.sources ==>
               plan.wouldMark[s] == if plan.markMissing then VanishedIds(t, s, Seen(norm, plan.rows, s)) else {}
    ensures total == if plan.markMissing then |MissingIds(norm, t, plan.rows, plan.sources)| else 0
  {
    total := 0;
    var rest := plan.sources;
    while rest != {}
      invariant rest <= plan.sources
      invariant total == StaleCount(norm, t, plan, plan.sources - rest)
      decreases |rest|
    {
      var src :| src in rest;
      OneSourceMoreStale(norm, t, plan, plan.sources - rest, src);
      assert plan.sources - rest + {src} == plan.sources - (rest - {src});
      total, rest := total + |plan.wouldMark[src]|, rest - {src};
    }
    assert plan.sources - rest == plan.sources;
  }

  ghost function StaleCount(norm: string -> string, t: Table, plan: SyncPlan, sources: set<string>): nat {
    if plan.markMissing then |MissingIds(norm, t, plan.rows, sources)| else 0
  }

  lemma OneSourceMoreStale(norm: string -> string, t: Table, plan: SyncPlan, sources: set<string>, src: string)
    requires src !in sources && src in plan.wouldMark
    requires plan.wouldMark[src] == if plan.markMissing then VanishedIds(t, src, Seen(norm, plan.rows, src)) else {}
    ensures StaleCount(norm, t, plan, sources + {src}) == StaleCount(norm, t, plan, sources) + |plan.wouldMark[src]|
  {
    OneSourceMoreMissing(norm, t, plan.rows, sources, src);
  }

  method ExistingIn(db: Database, importable: seq<ImportRow>, src: string) returns (existing: map<SourceKey, bool>)
    requires db.Valid()
    ensures forall k :: k in existing <==> k.0 == src && Known(db.listings, k) && Lists(db.norm, importable, k)
    ensures forall k :: k in existing ==> existing[k] == ClaimedAt(db.listings, k)
  {
    var urls := Urls(RowsOf(importable, src));
    var found := db.ExistingImportListings(src, urls);
    UrlsAreSeen(db.norm, importable, src);
    forall key ensures (exists i :: 0 <= i < |urls| && db.norm(urls[i]) == key) <==>
        Lists(db.norm, importable, (src, key)) {
      ListsSeen(db.norm, importable, src, key, urls);
    }
    forall key | key in found ensures found[key] == ClaimedAt(db.listings, (src, key)) {
      ClaimedOnce(db.listings, (src, key));
      var id :| id in db.listings && At(db.listings, id, (src, key));
    }
    existing := map key | key in found :: (src, key) := found[key];
  }

  /** The planned endpoints that are there already, and whether each is claimed. */
  method ExistingOf(db: Database, importable: seq<ImportRow>, sources: set<string>)
      returns (existing: map<SourceKey, bool>)
    requires db.Valid()
    ensures forall k :: k in existing <==> k.0 in sources && Known(db.listings, k) && Lists(db.norm, importable, k)
    ensures forall k :: k in existing ==> existing[k] == ClaimedAt(db.listings, k)
  {
    existing := map[];
    var rest := sources;
    while rest != {}
      invariant rest <= sources
      invariant forall k :: k in existing <==>
                    k.0 in sources - rest && Known(db.listings, k) && Lists(db.norm, importable, k)
      invariant forall k :: k in existing ==> existing[k] == ClaimedAt(db.listings, k)
      decreases |rest|
    {
      var src :| src in rest;
      var own := ExistingIn(db, importable, src);
      existing, rest := existing + own, rest - {src};
    }
  }

  lemma ListsSeen(norm: string -> string, rows: seq<ImportRow>, src: string, key: string, urls: seq<string>)
    requires (set i | 0 <= i < |urls| :: norm(urls[i])) == Seen(norm, rows, src)
    ensures (exists i :: 0 <= i < |urls| && norm(urls[i]) == key) <==> Lists(norm, rows, (src, key))
  {
    assert (exists i :: 0 <= i < |urls| && norm(urls[i]) == key) <==> key in Seen(norm, rows, src);
    if Lists(norm, rows, (src, key)) {
      var r :| r in rows && KeyOf(norm, r) == (src, key);
      assert norm(r.content.endpointUrl) in Seen(norm, rows, src);
    }
  }

  lemma ClaimedOnce(t: Table, k: SourceKey)
    requires SourceUnique(t)
    ensures forall id :: At(t, id, k) ==> (t[id].claimed <==> ClaimedAt(t, k))
  {
    forall id, other | At(t, id, k) && At(t, other, k) ensures id == other { KeyIsUnique(t, id, other, k); }
  }

  ghost predicate Counted(norm: string -> string, t: Table, rows: seq<ImportRow>, added: nat, updated: nat,
                          claimed: nat) {
    added == |New(norm, t, rows)| && updated == |Old(norm, t, rows)| && claimed == |Kept(norm, t, rows)|
  }

  lemma CountedOneMore(norm: string -> string, t: Table, rows: seq<ImportRow>, i: nat, added: nat, updated: nat,
                       claimed: nat)
    requires i < |rows| && Counted(norm, t, rows[..i], added, updated, claimed)
    ensures var k := KeyOf(norm, rows[i]);
            if Known(t, k)
            then Counted(norm, t, rows[..i + 1], added, updated + 1, if ClaimedAt(t, k) then claimed + 1 else claimed)
            else Counted(norm, t, rows[..i + 1], added + 1, updated, claimed)
  {
    OneRowMore(norm, t, rows, i);
    assert ClaimedAt(t, KeyOf(norm, rows[i])) ==> Known(t, KeyOf(norm, rows[i]));
  }

  method CountRows(db: Database, importable: seq<ImportRow>, existing: map<SourceKey, bool>)
      returns (added: nat, updated: nat, claimed: nat)
    requires forall r <- importable :: KeyOf(db.norm, r) in existing <==> Known(db.listings, KeyOf(db.norm, r))
    requires forall k :: k in existing ==> existing[k] == ClaimedAt(db.listings, k)
    ensures Counted(db.norm, db.listings, importable, added, updated, claimed)
  {
    added, updated, claimed := 0, 0, 0;
    NothingCounted(db.norm, db.listings, importable);
    for i := 0 to |importable|
      invariant Counted(db.norm, db.listings, importable[..i], added, updated, claimed)
    {
      CountedOneMore(db.norm, db.listings, importable, i, added, updated, claimed);
      var row := importable[i];
      assert row in importable;
      var key := (row.source, db.norm(row.content.endpointUrl));
      if key in existing {
        updated := updated + 1;
        if existing[key] { claimed := claimed + 1; }
      } else {
        added := added + 1;
      }
    }
    assert importable[..|importable|] == importable;
  }

  lemma NothingCounted(norm: string -> string, t: Table, rows: seq<ImportRow>)
    ensures Counted(norm, t, rows[..0], 0, 0, 0)
  { }

  /** What applying the plan would do, counted without writing. */
  method DryRunCounts(db: Database, plan: SyncPlan, ghost blocked: set<SourceKey>) returns (counts: Counts)
    requires db.Valid() && IsPlan(db.norm, db.listings, blocked, plan)
    ensures counts == CountsOf(db.norm, db.listings, plan.rows, plan.importable, plan.sources, plan.markMissing)
  {
    var existing := ExistingOf(db, plan.importable, plan.sources);
    ImportableMembers(db.norm, plan.rows, blocked, SortedTexts(plan.sources));
    var added, updated, claimed := CountRows(db, plan.importable, existing);
    var stale := TotalMissing(plan, db.norm, db.listings);
    counts := Counts(added, updated, claimed, stale);
  }

  // ---- Apply ----

  /** At each upsert of a plan, the row's endpoint is there, and claimed, exactly if it was at the start. */
  lemma UpsertSeesStart(norm: string -> string, base: Option<string>, t0: Table, importable: seq<ImportRow>, i: nat)
    requires SourceUnique(t0) && i < |importable| && DistinctKeys(norm, importable)
    requires Runs(norm, base, t0, Puts(importable[..i]))
    ensures var t, k := After(norm, base, t0, Puts(importable[..i])), KeyOf(norm, importable[i]);
            && SourceUnique(t)
            && (Known(t, k) <==> Known(t0, k))
            && (ClaimedAt(t, k) <==> ClaimedAt(t0, k))
  {
    var before, k := importable[..i], KeyOf(norm, importable[i]);
    var seen := (s: string) => Seen(norm, importable, s);
    var t := After(norm, base, t0, Puts(before));
    RunsIsFresh(norm, base, t0, Puts(before));
    forall w <- Puts(before) ensures FitsOne(norm, seen, w) {
      assert w.row in importable;
    }
    RunHasShape(norm, base, seen, t0, Puts(before));
    EffectOfPuts(norm, before);
    LastSaidKeys(norm, before, {}, k);
    var e := EffectOf(norm, Puts(before));
    assert k !in e.puts;
    ShapeKnows(norm, base, seen, t0, e, t, k);
    ShapeKeepsClaims(norm, base, seen, t0, e, t, k);
  }

  lemma ShapeKeepsClaims(norm: string -> string, base: Option<string>, seen: string -> set<string>, t0: Table,
                         e: Effect, t: Table, k: SourceKey)
    requires Shape(norm, base, seen, t0, e, t) && k !in e.puts
    ensures ClaimedAt(t, k) <==> ClaimedAt(t0, k)
  {
    ShapeKnows(norm, base, seen, t0, e, t, k);
    if id :| id in t && At(t, id, k) && t[id].claimed {
      RowStayedAt(norm, base, seen, t0, e, t, k, id);
    }
    if id :| id in t0 && At(t0, id, k) && t0[id].claimed {
      assert At(t, id, k);
      RowStayedAt(norm, base, seen, t0, e, t, k, id);
    }
  }

  lemma RowStayedAt(norm: string -> string, base: Option<string>, seen: string -> set<string>, t0: Table, e: Effect,
                    t: Table, k: SourceKey, id: Id)
    requires Shape(norm, base, seen, t0, e, t) && k !in e.puts && At(t, id, k)
    ensures At(t0, id, k) && t[id].claimed == t0[id].claimed
  {
    assert id !in t0 ==> IsAdded(norm, base, t0, e, id, t[id]);
    assert IsDue(base, seen, t0, e, id, t[id]);
    DueKeepsScope(base, seen, t0, e, id, t[id]);
  }

  lemma UpsertKeepsClaim(norm: string -> string, base: Option<string>, t: Table, r: ImportRow, id: Id)
    requires SourceUnique(t) && SourceUnique(Upserted(norm, base, t, r))
    requires At(Upserted(norm, base, t, r), id, KeyOf(norm, r)) && (Known(t, KeyOf(norm, r)) || r.id !in t)
    ensures Upserted(norm, base, t, r)[id].claimed <==> ClaimedAt(t, KeyOf(norm, r))
  {
    var k := KeyOf(norm, r);
    UpsertEffect(norm, base, t, r);
    UpsertKeys(norm, base, t, r);
    if Known(t, k) {
      var own :| own in t && At(t, own, k);
      KeyIsUnique(Upserted(norm, base, t, r), id, own, k);
      ClaimedOnce(t, k);
    } else {
      assert At(Upserted(norm, base, t, r), r.id, k);
      KeyIsUnique(Upserted(norm, base, t, r), id, r.id, k);
    }
  }

  /** The first `i` upserts were made, and these are the rows they returned. */
  ghost predicate Applied(norm: string -> string, base: Option<string>, t0: Table, importable: seq<ImportRow>, t: Table,
                          inserted: seq<Row>, updated: seq<Row>) {
    && Runs(norm, base, t0, Puts(importable)) && t == After(norm, base, t0, Puts(importable))
    && |inserted| == |New(norm, t0, importable)|
    && |updated| == |Old(norm, t0, importable)|
    && |Pick(updated, (row: Row) => row.claimed)| == |Kept(norm, t0, importable)|
  }

  lemma AppliedCounts(norm: string -> string, t0: Table, importable: seq<ImportRow>, i: nat, inserted: seq<Row>,
                      updated: seq<Row>, row: Row)
    requires i < |importable|
    requires |inserted| == |New(norm, t0, importable[..i])| && |updated| == |Old(norm, t0, importable[..i])|
    requires |Pick(updated, (r: Row) => r.claimed)| == |Kept(norm, t0, importable[..i])|
    requires row.claimed == ClaimedAt(t0, KeyOf(norm, importable[i]))
    ensures var known := Known(t0, KeyOf(norm, importable[i]));
            var inserted', updated' := inserted + (if known then [] else [row]),
                                       updated + (if known then [row] else []);
            && |inserted'| == |New(norm, t0, importable[..i + 1])| && |updated'| == |Old(norm, t0, importable[..i + 1])|
            && |Pick(updated', (r: Row) => r.claimed)| == |Kept(norm, t0, importable[..i + 1])|
  {
    OneRowMore(norm, t0, importable, i);
    assert (updated + [row])[..|updated|] == updated && updated + [] == updated;
    assert ClaimedAt(t0, KeyOf(norm, importable[i])) ==> Known(t0, KeyOf(norm, importable[i]));
  }

  lemma PutsMore(importable: seq<ImportRow>, i: nat)
    requires i < |importable|
    ensures Puts(importable[..i + 1]) == Puts(importable[..i]) + [Put(importable[i])]
  { }

  lemma UpsertOneMore(norm: string -> string, base: Option<string>, t0: Table, importable: seq<ImportRow>, i: nat,
                      t: Table)
    requires i < |importable| && Runs(norm, base, t0, Puts(importable[..i]))
    requires t == After(norm, base, t0, Puts(importable[..i]))
    requires UpsertOk(norm, base, t, importable[i])
    ensures Runs(norm, base, t0, Puts(importable[..i + 1]))
    ensures Upserted(norm, base, t, importable[i]) == After(norm, base, t0, Puts(importable[..i + 1]))
  {
    PutsMore(importable, i);
    OneMoreWrite(norm, base, t0, Puts(importable[..i]), Put(importable[i]));
  }

  lemma AppliedOneMore(norm: string -> string, base: Option<string>, t0: Table, importable: seq<ImportRow>, i: nat,
                       t: Table, inserted: seq<Row>, updated: seq<Row>, id: Id)
    requires SourceUnique(t0) && i < |importable| && DistinctKeys(norm, importable)
    requires Applied(norm, base, t0, importable[..i], t, inserted, updated)
    requires UpsertOk(norm, base, t, importable[i])
    requires At(Upserted(norm, base, t, importable[i]), id, KeyOf(norm, importable[i]))
    ensures var after := Upserted(norm, base, t, importable[i]);
            if Known(t, KeyOf(norm, importable[i]))
            then Applied(norm, base, t0, importable[..i + 1], after, inserted, updated + [after[id]])
            else Applied(norm, base, t0, importable[..i + 1], after, inserted + [after[id]], updated)
  {
    var row := Upserted(norm, base, t, importable[i])[id];
    UpsertOneMore(norm, base, t0, importable, i, t);
    UpsertSeesStart(norm, base, t0, importable, i);
    UpsertKeepsClaim(norm, base, t, importable[i], id);
    AppliedCounts(norm, t0, importable, i, inserted, updated, row);
    assert inserted + [] == inserted && updated + [] == updated;
  }

  method UpsertNext(db: Database, importable: seq<ImportRow>, i: nat, base: Option<string>, ghost t0: Table,
                    inserted: seq<Row>, updated: seq<Row>)
    returns (r: Result<(seq<Row>, seq<Row>), DbError>)
    requires db.Valid() && SourceUnique(t0) && i < |importable| && DistinctKeys(db.norm, importable)
    requires Applied(db.norm, base, t0, importable[..i], db.listings, inserted, updated)
    modifies db`listings
    ensures db.Valid()
    ensures r.Ok? ==> Applied(db.norm, base, t0, importable[..i + 1], db.listings, r.value.0, r.value.1)
    ensures r.Err? ==> StoppedAt(db.norm, base, t0, importable, i, db.listings)
  {
    ghost var t := db.listings;
    var result := db.ImportUpsert(importable[i], base);
    if result.Err? { return Err(result.error); }
    var (row, wasInserted) := result.value;
    ghost var id :| At(db.listings, id, KeyOf(db.norm, importable[i])) && db.listings[id] == row;
    AppliedOneMore(db.norm, base, t0, importable, i, t, inserted, updated, id);
    return Ok(if wasInserted then (inserted + [row], updated) else (inserted, updated + [row]));
  }

  /** The upserts of a plan, in order, up to the first the database refuses. */
  method UpsertAll(db: Database, importable: seq<ImportRow>, base: Option<string>)
    returns (r: Result<(seq<Row>, seq<Row>), DbError>)
    requires db.Valid() && DistinctKeys(db.norm, importable)
    modifies db`listings
    ensures db.Valid()
    ensures r.Ok? ==> Applied(db.norm, base, old(db.listings), importable, db.listings, r.value.0, r.value.1)
    ensures r.Err? ==> exists n :: StoppedAt(db.norm, base, old(db.listings), importable, n, db.listings)
  {
    var inserted, updated: seq<Row> := [], [];
    ghost var t0 := db.listings;
    for i := 0 to |importable|
      invariant db.Valid()
      invariant Applied(db.norm, base, t0, importable[..i], db.listings, inserted, updated)
    {
      var result := UpsertNext(db, importable, i, base, t0, inserted, updated);
      if result.Err? { return Err(result.error); }
      inserted, updated := result.value.0, result.value.1;
    }
    assert importable[..|importable|] == importable;
    return Ok((inserted, updated));
  }

  /** Upsert `n` was refused, and only those before it took effect. */
  ghost predicate StoppedAt(norm: string -> string, base: Option<string>, t0: Table, importable: seq<ImportRow>, n: int,
                            t: Table) {
    && 0 <= n < |importable|
    && Runs(norm, base, t0, Puts(importable[..n])) && t == After(norm, base, t0, Puts(importable[..n]))
    && !UpsertOk(norm, base, t, importable[n])
  }

  /** What marking a source finds is what it would have found before anything was written. */
  lemma MarkSeesStart(norm: string -> string, base: Option<string>, t0: Table, rows: seq<ImportRow>,
                      importable: seq<ImportRow>, order: seq<string>, at: Time, src: string)
    requires SourceUnique(t0) && src !in order && forall r <- importable :: r in rows
    requires Runs(norm, base, t0, PlanWrites(norm, rows, importable, order, true, at))
    ensures VanishedIds(After(norm, base, t0, PlanWrites(norm, rows, importable, order, true, at)), src,
                        Seen(norm, rows, src))
         == VanishedIds(t0, src, Seen(norm, rows, src))
  {
    var ws, seen := PlanWrites(norm, rows, importable, order, true, at), (s: string) => Seen(norm, rows, s);
    PlanFits(norm, rows, importable, order, true, at);
    FitsExtensional(norm, s => Seen(norm, rows, s), seen, ws);
    RunsIsFresh(norm, base, t0, ws);
    RunHasShape(norm, base, seen, t0, ws);
    PlanEffect(norm, rows, importable, order, at);
    MissingUnchanged(norm, base, seen, t0, EffectOf(norm, ws), After(norm, base, t0, ws), src);
  }

  lemma WritesMore(norm: string -> string, rows: seq<ImportRow>, importable: seq<ImportRow>, order: seq<string>, i: nat,
                   at: Time)
    requires i < |order|
    ensures PlanWrites(norm, rows, importable, order[..i + 1], true, at)
         == PlanWrites(norm, rows, importable, order[..i], true, at) + [Mark(order[i], Seen(norm, rows, order[i]), at)]
  { }

  lemma OneMarkMore(norm: string -> string, base: Option<string>, t0: Table, rows: seq<ImportRow>,
                    importable: seq<ImportRow>, order: seq<string>, i: nat, at: Time)
    requires i < |order| && Runs(norm, base, t0, PlanWrites(norm, rows, importable, order[..i], true, at))
    ensures var ws, src := PlanWrites(norm, rows, importable, order[..i + 1], true, at), order[i];
            && Runs(norm, base, t0, ws)
            && After(norm, base, t0, ws)
               == Marked(After(norm, base, t0, PlanWrites(norm, rows, importable, order[..i], true, at)), src,
                         Seen(norm, rows, src), at)
  {
    var before, mark := PlanWrites(norm, rows, importable, order[..i], true, at),
                        Mark(order[i], Seen(norm, rows, order[i]), at);
    WritesMore(norm, rows, importable, order, i, at);
    OneMoreWrite(norm, base, t0, before, mark);
  }

  method MarkOne(db: Database, rows: seq<ImportRow>, bySource: map<string, seq<ImportRow>>, src: string, now: Time)
      returns (marked: set<Id>)
    requires db.Valid()
    requires bySource.Keys == SourcesOf(rows) && forall s :: s in bySource ==> bySource[s] == RowsOf(rows, s)
    modifies db`listings
    ensures db.Valid()
    ensures marked == VanishedIds(old(db.listings), src, Seen(db.norm, rows, src))
    ensures db.listings == Marked(old(db.listings), src, Seen(db.norm, rows, src), now)
  {
    var seen := if src in bySource then bySource[src] else [];
    if src !in bySource { NoRows(rows, src); }
    UrlsAreSeen(db.norm, rows, src);
    marked := db.MarkMissing(src, Urls(seen), now);
  }

  /** The marking of `order` has been done after all the upserts, and found these. */
  ghost predicate MarkedUpTo(norm: string -> string, base: Option<string>, t0: Table, rows: seq<ImportRow>,
                             importable: seq<ImportRow>, order: seq<string>, at: Time, t: Table, missing: set<Id>) {
    var ws := PlanWrites(norm, rows, importable, order, true, at);
    Runs(norm, base, t0, ws) && t == After(norm, base, t0, ws) && missing == MissingIds(norm, t0, rows, SetOf(order))
  }

  lemma MarkedOneMore(norm: string -> string, base: Option<string>, t0: Table, rows: seq<ImportRow>,
                      importable: seq<ImportRow>, order: seq<string>, i: nat, at: Time, t: Table, missing: set<Id>)
    requires SourceUnique(t0) && i < |order| && order[i] !in order[..i] && forall r <- importable :: r in rows
    requires MarkedUpTo(norm, base, t0, rows, importable, order[..i], at, t, missing)
    ensures var seen := Seen(norm, rows, order[i]);
            MarkedUpTo(norm, base, t0, rows, importable, order[..i + 1], at, Marked(t, order[i], seen, at),
                       missing + VanishedIds(t, order[i], seen))
  {
    MarkSeesStart(norm, base, t0, rows, importable, order[..i], at, order[i]);
    OneMarkMore(norm, base, t0, rows, importable, order, i, at);
    var before, after := SetOf(order[..i]), SetOf(order[..i + 1]);
    assert after == before + {order[i]} by { assert order[..i + 1] == order[..i] + [order[i]]; }
    OneSourceMoreMissing(norm, t0, rows, before, order[i]);
  }

  /** The marking of a plan, source by source. */
  method MarkAll(db: Database, rows: seq<ImportRow>, bySource: map<string, seq<ImportRow>>, order: seq<string>,
                 now: Time, ghost importable: seq<ImportRow>, ghost base: Option<string>, ghost t0: Table)
    returns (newlyMissing: set<Id>)
    requires db.Valid() && SourceUnique(t0) && forall r <- importable :: r in rows
    requires bySource.Keys == SourcesOf(rows) && forall s :: s in bySource ==> bySource[s] == RowsOf(rows, s)
    requires forall i, j :: 0 <= i < j < |order| ==> order[i] != order[j]
    requires Runs(db.norm, base, t0, Puts(importable)) && db.listings == After(db.norm, base, t0, Puts(importable))
    modifies db`listings
    ensures db.Valid()
    ensures MarkedUpTo(db.norm, base, t0, rows, importable, order, now, db.listings, newlyMissing)
  {
    newlyMissing := {};
    assert PlanWrites(db.norm, rows, importable, [], true, now) == Puts(importable);
    for i := 0 to |order|
      invariant db.Valid()
      invariant MarkedUpTo(db.norm, base, t0, rows, importable, order[..i], now, db.listings, newlyMissing)
    {
      MarkedOneMore(db.norm, base, t0, rows, importable, order, i, now, db.listings, newlyMissing);
      var marked := MarkOne(db, rows, bySource, order[i], now);
      newlyMissing := newlyMissing + marked;
    }
    assert order[..|order|] == order;
  }

  /** A plan's writes were all made, and these are the outcome's sizes. */
  ghost predicate Completed(norm: string -> string, base: Option<string>, t0: Table, plan: SyncPlan, now: Time,
                            t: Table, outcome: SyncOutcome) {
    var ws := PlanWrites(norm, plan.rows, plan.importable, SortedTexts(plan.sources), plan.markMissing, now);
    && Runs(norm, base, t0, ws) && t == After(norm, base, t0, ws)
    && Counts(|outcome.inserted|, |outcome.updated|, |Pick(outcome.updated, (row: Row) => row.claimed)|,
              |outcome.newlyMissing|)
       == CountsOf(norm, t0, plan.rows, plan.importable, plan.sources, plan.markMissing)
  }

  lemma CompletedByUpserts(norm: string -> string, base: Option<string>, t0: Table, plan: SyncPlan, now: Time, t: Table,
                           inserted: seq<Row>, updated: seq<Row>)
    requires Applied(norm, base, t0, plan.importable, t, inserted, updated) && !plan.markMissing
    ensures Completed(norm, base, t0, plan, now, t, SyncOutcome(inserted, updated, {}))
  {
    assert PlanWrites(norm, plan.rows, plan.importable, SortedTexts(plan.sources), false, now) == Puts(plan.importable);
  }

  lemma CompletedByMarks(norm: string -> string, base: Option<string>, t0: Table, plan: SyncPlan, now: Time, t: Table,
                         u: Table, inserted: seq<Row>, updated: seq<Row>, missing: set<Id>)
    requires Applied(norm, base, t0, plan.importable, t, inserted, updated) && plan.markMissing
    requires MarkedUpTo(norm, base, t0, plan.rows, plan.importable, SortedTexts(plan.sources), now, u, missing)
    ensures Completed(norm, base, t0, plan, now, u, SyncOutcome(inserted, updated, missing))
  {
    assert SetOf(SortedTexts(plan.sources)) == plan.sources;
  }

  lemma PlanIsSound(norm: string -> string, t: Table, blocked: set<SourceKey>, plan: SyncPlan)
    requires IsPlan(norm, t, blocked, plan)
    ensures DistinctKeys(norm, plan.importable) && forall r <- plan.importable :: r in plan.rows
  {
    ImportableRepresents(norm, plan.rows, blocked, SortedTexts(plan.sources));
    ImportableMembers(norm, plan.rows, blocked, SortedTexts(plan.sources));
  }

  method ApplyRows(db: Database, plan: SyncPlan, now: Time, base: Option<string>)
      returns (r: Result<SyncOutcome, DbError>)
    requires db.Valid() && DistinctKeys(db.norm, plan.importable) && forall r <- plan.importable :: r in plan.rows
    requires plan.bySource.Keys == SourcesOf(plan.rows)
    requires forall s :: s in plan.bySource ==> plan.bySource[s] == RowsOf(plan.rows, s)
    modifies db`listings
    ensures db.Valid()
    ensures r.Ok? ==> Completed(db.norm, base, old(db.listings), plan, now, db.listings, r.value)
    ensures r.Err? ==> exists n :: StoppedAt(db.norm, base, old(db.listings), plan.importable, n, db.listings)
  {
    ghost var t0 := db.listings;
    var result := UpsertAll(db, plan.importable, base);
    if result.Err? { return Err(result.error); }
    var (inserted, updated) := result.value;
    if !plan.markMissing {
      CompletedByUpserts(db.norm, base, t0, plan, now, db.listings, inserted, updated);
      return Ok(SyncOutcome(inserted, updated, {}));
    }
    ghost var t := db.listings;
    var order := SortTexts(plan.sources);
    var newlyMissing := MarkAll(db, plan.rows, plan.bySource, order, now, plan.importable, base, t0);
    CompletedByMarks(db.norm, base, t0, plan, now, t, db.listings, inserted, updated, newlyMissing);
    return Ok(SyncOutcome(inserted, updated, newlyMissing));
  }

  /**
   Writes the plan, and what it reports is what the dry run reported. A refused upsert ends it
   where it stands: what came before it is written, and nothing is marked.
   */
  method ApplyPlan(db: Database, plan: SyncPlan, now: Time, base: Option<string>, ghost blocked: set<SourceKey>)
    returns (r: Result<SyncOutcome, DbError>)
    requires db.Valid() && IsPlan(db.norm, db.listings, blocked, plan)
    modifies db`listings
    ensures db.Valid()
    ensures r.Ok? ==> Completed(db.norm, base, old(db.listings), plan, now, db.listings, r.value)
    ensures r.Err? ==> exists n :: StoppedAt(db.norm, base, old(db.listings), plan.importable, n, db.listings)
  {
    PlanIsSound(db.norm, db.listings, blocked, plan);
    r := ApplyRows(db, plan, now, base);
  }

  // ---- The request ----

  datatype Report = Report(dryRun: bool, records: nat, valid: nat, counts: Counts, rejected: nat, skipped: nat,
                           duplicates: nat)

  datatype RequestError = NoRecords | Refused

  /** The report of a batch, told from the table before the request and the batch alone. */
  ghost predicate Tells(norm: string -> string, t: Table, blocked: set<SourceKey>, rows: seq<ImportRow>, rejected: nat,
                        markMissing: bool, report: Report) {
    var importable := Importable(norm, rows, blocked, SortedTexts(SourcesOf(rows)));
    && report.counts == CountsOf(norm, t, rows, importable, SourcesOf(rows), markMissing)
    && report.skipped == |Blocked(norm, rows, blocked)|
    && report.rejected == rejected && report.valid == |rows|
    && report.records == report.valid + report.rejected
    && report.valid == report.counts.added + report.counts.updated + report.skipped + report.duplicates
  }

  lemma PlanTells(norm: string -> string, t: Table, blocked: set<SourceKey>, plan: SyncPlan, counts: Counts,
                  report: Report)
    requires IsPlan(norm, t, blocked, plan) && plan.sources == SourcesOf(plan.rows)
    requires counts == CountsOf(norm, t, plan.rows, plan.importable, plan.sources, plan.markMissing)
    requires report == Report(report.dryRun, |plan.rows| + |plan.rejected|, |plan.rows|, counts, |plan.rejected|,
                              |plan.skipped|, plan.duplicates)
    ensures Tells(norm, t, blocked, plan.rows, |plan.rejected|, plan.markMissing, report)
  {
    OldAndNew(norm, t, plan.importable);
    assert |plan.skipped| == |multiset(plan.skipped)|;
    assert |Blocked(norm, plan.rows, blocked)| == |multiset(Blocked(norm, plan.rows, blocked))|;
  }

  method PlanAndCount(db: Database, records: seq<Record>, source: Option<string>, ids: seq<Id>, now: Time,
                      markMissing: bool)
    returns (plan: SyncPlan, counts: Counts)
    requires db.Valid() && |ids| == |records|
    ensures IsPlan(db.norm, db.listings, db.doNotImport.Keys, plan)
    ensures plan.rows == ValidRows(records, source, ids, now) && plan.markMissing == markMissing
    ensures plan.rejected == Rejections(records, source) && |plan.rows| + |plan.rejected| == |records|
    ensures plan.sources == SourcesOf(plan.rows)
    ensures counts == CountsOf(db.norm, db.listings, plan.rows, plan.importable, plan.sources, markMissing)
  {
    plan := PlanSync(db, records, source, ids, now, false, markMissing);
    counts := DryRunCounts(db, plan, db.doNotImport.Keys);
  }

  /**
   One import request: a dry run and the real run on the same table report the same, because
   either report is told from the table before it and the batch alone.
   */
  method ImportListings(db: Database, records: seq<Record>, source: Option<string>, ids: seq<Id>, now: Time,
                        dryRun: bool, markMissing: bool, base: Option<string>)
    returns (r: Result<Report, RequestError>)
    requires db.Valid() && |ids| == |records|
    modifies db`listings
    ensures db.Valid()
    ensures r == Err(NoRecords) <==> records == []
    ensures dryRun ==> db.listings == old(db.listings) && r != Err(Refused)
    ensures r.Ok? ==> Tells(db.norm, old(db.listings), db.doNotImport.Keys, ValidRows(records, source, ids, now),
                            |Rejections(records, source)|, markMissing, r.value)
    ensures r.Ok? && !dryRun ==>
              var ws := WritesOf(db.norm, records, source, ids, now, db.doNotImport.Keys, false, markMissing);
              Runs(db.norm, base, old(db.listings), ws) && db.listings == After(db.norm, base, old(db.listings), ws)
  {
    if records == [] { return Err(NoRecords); }
    ghost var t0, blocked := db.listings, db.doNotImport.Keys;
    var plan, counts := PlanAndCount(db, records, source, ids, now, markMissing);
    var done := PerformUnless(db, dryRun, plan, counts, now, base, records, source, ids, blocked);
    if done.Err? { return Err(Refused); }
    counts := done.value;
    var report := Report(dryRun, |records|, |plan.rows|, counts, |plan.rejected|, |plan.skipped|, plan.duplicates);
    PlanTells(db.norm, t0, blocked, plan, counts, report);
    return Ok(report);
  }

  /** A dry run stops at the plan's own counts. */
  method PerformUnless(db: Database, dryRun: bool, plan: SyncPlan, counts: Counts, now: Time, base: Option<string>,
                       ghost records: seq<Record>, ghost source: Option<string>, ghost ids: seq<Id>,
                       ghost blocked: set<SourceKey>)
    returns (r: Result<Counts, DbError>)
    requires db.Valid() && IsPlan(db.norm, db.listings, blocked, plan)
    requires |ids| == |records| && plan.rows == ValidRows(records, source, ids, now)
    requires plan.sources == SourcesOf(plan.rows)
    requires counts == CountsOf(db.norm, db.listings, plan.rows, plan.importable, plan.sources, plan.markMissing)
    modifies db`listings
    ensures db.Valid()
    ensures r.Ok? ==> r.value == counts
    ensures dryRun ==> db.listings == old(db.listings) && r.Ok?
    ensures r.Ok? && !dryRun ==>
              var ws := WritesOf(db.norm, records, source, ids, now, blocked, false, plan.markMissing);
              Runs(db.norm, base, old(db.listings), ws) && db.listings == After(db.norm, base, old(db.listings), ws)
  {
    r := Ok(counts);
    if !dryRun { r := Perform(db, plan, counts, now, base, records, source, ids, blocked); }
  }

  /** The real run, and its counts as the response gives them. */
  method Perform(db: Database, plan: SyncPlan, counts: Counts, now: Time, base: Option<string>,
                 ghost records: seq<Record>, ghost source: Option<string>, ghost ids: seq<Id>,
                 ghost blocked: set<SourceKey>)
    returns (r: Result<Counts, DbError>)
    requires db.Valid() && IsPlan(db.norm, db.listings, blocked, plan)
    requires |ids| == |records| && plan.rows == ValidRows(records, source, ids, now)
    requires plan.sources == SourcesOf(plan.rows)
    requires counts == CountsOf(db.norm, db.listings, plan.rows, plan.importable, plan.sources, plan.markMissing)
    modifies db`listings
    ensures db.Valid()
    ensures r.Ok? ==> r.value == counts
    ensures r.Ok? ==>
              var ws := WritesOf(db.norm, records, source, ids, now, blocked, false, plan.markMissing);
              Runs(db.norm, base, old(db.listings), ws) && db.listings == After(db.norm, base, old(db.listings), ws)
  {
    ghost var t0 := db.listings;
    var outcome := ApplyPlan(db, plan, now, base, blocked);
    if outcome.Err? { return Err(outcome.error); }
    var done := outcome.value;
    CompletedCounts(db.norm, base, t0, plan, now, db.listings, done, records, source, ids, blocked);
    return Ok(Counts(|done.inserted|, |done.updated|, counts.claimedKept, |done.newlyMissing|));
  }

  lemma CompletedCounts(norm: string -> string, base: Option<string>, t0: Table, plan: SyncPlan, now: Time, t: Table,
                        outcome: SyncOutcome, records: seq<Record>, source: Option<string>, ids: seq<Id>,
                        blocked: set<SourceKey>)
    requires Completed(norm, base, t0, plan, now, t, outcome) && IsPlan(norm, t0, blocked, plan)
    requires |ids| == |records| && plan.rows == ValidRows(records, source, ids, now)
    requires plan.sources == SourcesOf(plan.rows)
    ensures var counts := CountsOf(norm, t0, plan.rows, plan.importable, plan.sources, plan.markMissing);
            Counts(|outcome.inserted|, |outcome.updated|, counts.claimedKept, |outcome.newlyMissing|) == counts
    ensures var ws := WritesOf(norm, records, source, ids, now, blocked, false, plan.markMissing);
            Runs(norm, base, t0, ws) && t == After(norm, base, t0, ws)
  {
    assert SyncSources(plan.rows, source, false) == plan.sources;
  }

  lemma OldAndNew(norm: string -> string, t: Table, rows: seq<ImportRow>)
    ensures |rows| == |New(norm, t, rows)| + |Old(norm, t, rows)|
  {
    PickSplits(rows, (r: ImportRow) => true, (r: ImportRow) => !Known(t, KeyOf(norm, r)),
               (r: ImportRow) => Known(t, KeyOf(norm, r)));
    PickAll(rows, (r: ImportRow) => true);
  }
}
