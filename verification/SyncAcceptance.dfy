/**
 When a sync is accepted. Where the batch lists each endpoint under one source, an upsert is accepted
 or refused whatever was upserted before it, so a plan is accepted if the batch in its own order is.
 Where two sources share an endpoint, the order decides.
 */
module SyncAcceptance {
  import opened Wrappers
  import opened Listings
  import opened Statements
  import opened Database
  import opened Refusals
  import opened Batches
  import opened SyncRuns
  import opened SyncLaws
  import opened ImportSync
  import opened SyncTheorems
  import Orders

  // ---- One upsert ----

  /** Some other listing is an active offering of this endpoint, owner and scope. */
  ghost predicate Clashes(t: Table, k: SourceKey, owner: string, isTest: bool) {
    exists other :: other in t && !At(t, other, k) && IsDuplicate(t, other, k.1, owner, None, isTest)
  }

  /** The table takes this content at this key: it is no offering, or there is no clash with the row it would be in. */
  ghost predicate Acceptable(t: Table, k: SourceKey, c: Content) {
    || c.listingType != GUARDED_TYPE
    || if Known(t, k) then
         forall id :: id in t && At(t, id, k) ==>
           t[id].claimed || t[id].status.Inactive? || !Clashes(t, k, t[id].submittedBy, t[id].isTest)
       else !Clashes(t, k, PLACEHOLDER, false)
  }

  lemma AcceptedIffAcceptable(norm: string -> string, base: Option<string>, t: Table, r: ImportRow)
    requires IndexOk(t) && (Known(t, KeyOf(norm, r)) || r.id !in t)
    ensures UpsertOk(norm, base, t, r) <==> Acceptable(t, KeyOf(norm, r), r.content)
  {
    var k := KeyOf(norm, r);
    if id :| id in t && At(t, id, k) {
      forall other | At(t, other, k) ensures other == id { KeyIsUnique(t, other, id, k); }
      ResyncRefusedIff(norm, base, t, r, id);
    } else {
      FirstImportRefusedIff(norm, base, t, r);
    }
  }

  // ---- Along a run ----

  /** The run has put this endpoint under no other source. */
  ghost predicate Alone(e: Effect, k: SourceKey) {
    forall j :: j in e.puts && j.1 == k.1 ==> j == k
  }

  /** Rows of the endpoint that are not at the key are as they were before the run. */
  lemma SameDuplicate(norm: string -> string, base: Option<string>, seen: string -> set<string>, t0: Table, e: Effect,
                      t: Table, k: SourceKey, other: Id, owner: string, isTest: bool)
    requires Shape(norm, base, seen, t0, e, t) && Alone(e, k)
    ensures other in t && !At(t, other, k) && IsDuplicate(t, other, k.1, owner, None, isTest)
       <==> other in t0 && !At(t0, other, k) && IsDuplicate(t0, other, k.1, owner, None, isTest)
  {
    ShapeKnows(norm, base, seen, t0, e, t, k);
    if other in t0 {
      assert IsDue(base, seen, t0, e, other, t[other]);
      DueKeepsScope(base, seen, t0, e, other, t[other]);
    } else if other in t {
      assert IsAdded(norm, base, t0, e, other, t[other]);
    }
  }

  lemma SameClashes(norm: string -> string, base: Option<string>, seen: string -> set<string>, t0: Table, e: Effect,
                    t: Table, k: SourceKey, owner: string, isTest: bool)
    requires Shape(norm, base, seen, t0, e, t) && Alone(e, k)
    ensures Clashes(t, k, owner, isTest) <==> Clashes(t0, k, owner, isTest)
  {
    forall other
      ensures other in t && !At(t, other, k) && IsDuplicate(t, other, k.1, owner, None, isTest)
         <==> other in t0 && !At(t0, other, k) && IsDuplicate(t0, other, k.1, owner, None, isTest)
    {
      SameDuplicate(norm, base, seen, t0, e, t, k, other, owner, isTest);
    }
  }

  /** What the row at the key, if it is the only one, decides. */
  lemma AcceptableAt(t: Table, k: SourceKey, c: Content, id: Id)
    requires SourceUnique(t) && At(t, id, k)
    ensures Acceptable(t, k, c) <==>
            || c.listingType != GUARDED_TYPE || t[id].claimed || t[id].status.Inactive?
            || !Clashes(t, k, t[id].submittedBy, t[id].isTest)
  {
    forall other | At(t, other, k) ensures other == id { KeyIsUnique(t, other, id, k); }
  }

  lemma SameAcceptableOld(norm: string -> string, base: Option<string>, seen: string -> set<string>, t0: Table,
                          e: Effect, t: Table, k: SourceKey, c: Content, id: Id)
    requires SourceUnique(t0) && Shape(norm, base, seen, t0, e, t) && Alone(e, k) && At(t, id, k) && id in t0
    ensures Acceptable(t, k, c) <==> Acceptable(t0, k, c)
  {
    ShapeKnows(norm, base, seen, t0, e, t, k);
    assert IsDue(base, seen, t0, e, id, t[id]);
    DueKeepsScope(base, seen, t0, e, id, t[id]);
    SameClashes(norm, base, seen, t0, e, t, k, t[id].submittedBy, t[id].isTest);
    AcceptableAt(t, k, c, id);
    AcceptableAt(t0, k, c, id);
  }

  lemma SameAcceptableNew(norm: string -> string, base: Option<string>, seen: string -> set<string>, t0: Table,
                          e: Effect, t: Table, k: SourceKey, c: Content, id: Id)
    requires SourceUnique(t0) && Shape(norm, base, seen, t0, e, t) && Alone(e, k) && At(t, id, k) && id !in t0
    ensures Acceptable(t, k, c) <==> Acceptable(t0, k, c)
  {
    assert IsAdded(norm, base, t0, e, id, t[id]);
    AddedScope(norm, base, t0, e, id, t[id]);
    SameClashes(norm, base, seen, t0, e, t, k, PLACEHOLDER, false);
    AcceptableAt(t, k, c, id);
  }

  /** So what is acceptable at the key does not depend on the run so far. */
  lemma SameAcceptable(norm: string -> string, base: Option<string>, seen: string -> set<string>, t0: Table, e: Effect,
                       t: Table, k: SourceKey, c: Content)
    requires SourceUnique(t0) && Shape(norm, base, seen, t0, e, t) && Alone(e, k)
    ensures Acceptable(t, k, c) <==> Acceptable(t0, k, c)
  {
    if id :| id in t && At(t, id, k) {
      if id in t0 {
        SameAcceptableOld(norm, base, seen, t0, e, t, k, c, id);
      } else {
        SameAcceptableNew(norm, base, seen, t0, e, t, k, c, id);
      }
    } else {
      ShapeKnows(norm, base, seen, t0, e, t, k);
      SameClashes(norm, base, seen, t0, e, t, k, PLACEHOLDER, false);
    }
  }

  // ---- Whole runs ----

  /** Each endpoint is put under one source. */
  ghost predicate OneSourceEach(norm: string -> string, ws: seq<Write>) {
    forall v, w :: v in ws && w in ws && v.Put? && w.Put? && KeyOf(norm, v.row).1 == KeyOf(norm, w.row).1 ==>
      v.row.source == w.row.source
  }

  ghost predicate AllAcceptable(norm: string -> string, t: Table, ws: seq<Write>) {
    forall w <- ws :: w.Put? ==> Acceptable(t, KeyOf(norm, w.row), w.row.content)
  }

  lemma {:induction false} EffectKeys(norm: string -> string, ws: seq<Write>, k: SourceKey)
    requires k in EffectOf(norm, ws).puts
    ensures exists w <- ws :: w.Put? && KeyOf(norm, w.row) == k
  {
    var n := |ws| - 1;
    assert ws[n] in ws;
    if !(ws[n].Put? && KeyOf(norm, ws[n].row) == k) {
      EffectKeys(norm, ws[..n], k);
      var w :| w in ws[..n] && w.Put? && KeyOf(norm, w.row) == k;
      assert w in ws;
    }
  }

  lemma PrefixAlone(norm: string -> string, ws: seq<Write>)
    requires |ws| > 0 && ws[|ws| - 1].Put? && OneSourceEach(norm, ws)
    ensures Alone(EffectOf(norm, ws[..|ws| - 1]), KeyOf(norm, ws[|ws| - 1].row))
  {
    var n := |ws| - 1;
    var e, k := EffectOf(norm, ws[..n]), KeyOf(norm, ws[n].row);
    forall j | j in e.puts && j.1 == k.1 ensures j == k {
      EffectKeys(norm, ws[..n], j);
      var w :| w in ws[..n] && w.Put? && KeyOf(norm, w.row) == j;
      assert w in ws && ws[n] in ws;
    }
  }

  /** Where no endpoint has two sources, a run is accepted exactly if the table takes each of its rows by itself. */
  lemma {:induction false} RunsIffAcceptable(norm: string -> string, base: Option<string>, seen: string -> set<string>,
                                             t0: Table, ws: seq<Write>)
    requires IndexOk(t0) && Fits(norm, seen, ws) && Fresh(norm, base, t0, ws) && OneSourceEach(norm, ws)
    ensures Runs(norm, base, t0, ws) <==> AllAcceptable(norm, t0, ws)
  {
    if |ws| != 0 {
      var n := |ws| - 1;
      assert ws == ws[..n] + [ws[n]];
      assert forall w <- ws[..n] :: w in ws;
      RunsIffAcceptable(norm, base, seen, t0, ws[..n]);
      if Runs(norm, base, t0, ws[..n]) { NextIsAccepted(norm, base, seen, t0, ws); }
    }
  }

  lemma NextIsAccepted(norm: string -> string, base: Option<string>, seen: string -> set<string>, t0: Table,
                       ws: seq<Write>)
    requires |ws| > 0 && IndexOk(t0) && Fits(norm, seen, ws) && Fresh(norm, base, t0, ws) && OneSourceEach(norm, ws)
    requires Runs(norm, base, t0, ws[..|ws| - 1])
    ensures var n, w := |ws| - 1, ws[|ws| - 1];
            Accepts(norm, base, After(norm, base, t0, ws[..n]), w) <==>
            (w.Put? ==> Acceptable(t0, KeyOf(norm, w.row), w.row.content))
  {
    var n := |ws| - 1;
    var t := After(norm, base, t0, ws[..n]);
    if ws[n].Put? {
      assert forall w <- ws[..n] :: w in ws;
      RunKeepsIndexes(norm, base, t0, ws[..n]);
      RunHasShape(norm, base, seen, t0, ws[..n]);
      PrefixAlone(norm, ws);
      AcceptedIffAcceptable(norm, base, t, ws[n].row);
      SameAcceptable(norm, base, seen, t0, EffectOf(norm, ws[..n]), t, KeyOf(norm, ws[n].row), ws[n].row.content);
    }
  }

  // ---- Batches ----

  /** Each unblocked endpoint of the batch is listed under one source. */
  ghost predicate EndpointsHaveOneSource(norm: string -> string, rows: seq<ImportRow>, blocked: set<SourceKey>) {
    forall r, p :: r in Unblocked(norm, rows, blocked) && p in Unblocked(norm, rows, blocked) ==>
      KeyOf(norm, r).1 == KeyOf(norm, p).1 ==> r.source == p.source
  }

  lemma PutsOf(norm: string -> string, rows: seq<ImportRow>, kept: seq<ImportRow>, blocked: set<SourceKey>,
               marks: seq<Write>, ws: seq<Write>)
    requires EndpointsHaveOneSource(norm, rows, blocked) && forall r <- kept :: r in Unblocked(norm, rows, blocked)
    requires ws == Puts(kept) + marks && forall w <- marks :: w.Mark?
    ensures OneSourceEach(norm, ws)
    ensures forall w <- ws :: w.Put? ==> w.row in kept
    ensures forall r <- kept :: Put(r) in ws
  {
    forall w <- ws ensures w.Put? ==> w.row in kept { }
    forall i | 0 <= i < |kept| ensures Put(kept[i]) in ws {
      assert ws[i] == Put(kept[i]);
    }
  }

  /** If the batch is accepted row by row in its own order, and no endpoint has two sources, the plan is accepted. */
  lemma PlanIsAccepted(norm: string -> string, base: Option<string>, t0: Table, records: seq<Record>,
                       source: Option<string>, ids: seq<Id>, now: Time, blocked: set<SourceKey>, allowEmptySync: bool,
                       markMissing: bool)
    requires IndexOk(t0) && |ids| == |records|
    requires var rows := ValidRows(records, source, ids, now);
             EndpointsHaveOneSource(norm, rows, blocked) && Runs(norm, base, t0, Puts(Unblocked(norm, rows, blocked)))
    requires Fresh(norm, base, t0, WritesOf(norm, records, source, ids, now, blocked, allowEmptySync, markMissing))
    ensures Runs(norm, base, t0, WritesOf(norm, records, source, ids, now, blocked, allowEmptySync, markMissing))
  {
    var rows := ValidRows(records, source, ids, now);
    var order := SortedTexts(SyncSources(rows, source, allowEmptySync));
    ImportableMembers(norm, rows, blocked, order);
    EachIsAcceptable(norm, base, t0, rows, blocked);
    AcceptableIsAccepted(norm, base, t0, rows, blocked, Importable(norm, rows, blocked, order), order, markMissing,
                         now);
  }

  lemma EachIsAcceptable(norm: string -> string, base: Option<string>, t0: Table, rows: seq<ImportRow>,
                         blocked: set<SourceKey>)
    requires IndexOk(t0) && EndpointsHaveOneSource(norm, rows, blocked)
    requires Runs(norm, base, t0, Puts(Unblocked(norm, rows, blocked)))
    ensures forall r <- Unblocked(norm, rows, blocked) :: Acceptable(t0, KeyOf(norm, r), r.content)
  {
    var each := Unblocked(norm, rows, blocked);
    RunsIsFresh(norm, base, t0, Puts(each));
    assert Puts(each) + [] == Puts(each);
    AcceptedInAnyOrder(norm, base, t0, rows, blocked, each, [], Puts(each));
  }

  lemma AcceptableIsAccepted(norm: string -> string, base: Option<string>, t0: Table, rows: seq<ImportRow>,
                             blocked: set<SourceKey>, kept: seq<ImportRow>, order: seq<string>, markMissing: bool,
                             at: Time)
    requires IndexOk(t0) && EndpointsHaveOneSource(norm, rows, blocked)
    requires forall r <- kept :: r in rows && KeyOf(norm, r) !in blocked
    requires forall r <- Unblocked(norm, rows, blocked) :: Acceptable(t0, KeyOf(norm, r), r.content)
    requires Fresh(norm, base, t0, PlanWrites(norm, rows, kept, order, markMissing, at))
    ensures Runs(norm, base, t0, PlanWrites(norm, rows, kept, order, markMissing, at))
  {
    assert forall r <- kept :: r in Unblocked(norm, rows, blocked);
    AcceptedInAnyOrder(norm, base, t0, rows, blocked, kept, if markMissing then Marks(norm, rows, order, at) else [],
                       PlanWrites(norm, rows, kept, order, markMissing, at));
  }

  /**
   Unblocked rows of a batch, whichever and in whatever order, then markings: accepted exactly if
   each row is by itself.
   */
  lemma AcceptedInAnyOrder(norm: string -> string, base: Option<string>, t0: Table, rows: seq<ImportRow>,
                           blocked: set<SourceKey>, kept: seq<ImportRow>, marks: seq<Write>, ws: seq<Write>)
    requires IndexOk(t0) && EndpointsHaveOneSource(norm, rows, blocked)
    requires forall r <- kept :: r in Unblocked(norm, rows, blocked)
    requires ws == Puts(kept) + marks && forall w <- marks :: w.Mark? && FitsOne(norm, s => Seen(norm, rows, s), w)
    ensures Fresh(norm, base, t0, ws) ==>
              (Runs(norm, base, t0, ws) <==> forall r <- kept :: Acceptable(t0, KeyOf(norm, r), r.content))
  {
    var seen := (s: string) => Seen(norm, rows, s);
    PutsOf(norm, rows, kept, blocked, marks, ws);
    forall w <- ws ensures FitsOne(norm, seen, w) {
      assert w.Put? ==> w.row in kept && w.row in rows;
      assert w.Mark? ==> w in marks && FitsOne(norm, s => Seen(norm, rows, s), w);
    }
    if Fresh(norm, base, t0, ws) {
      RunsIffAcceptable(norm, base, seen, t0, ws);
      assert AllAcceptable(norm, t0, ws) <==> forall r <- kept :: Acceptable(t0, KeyOf(norm, r), r.content) by {
        forall r <- kept ensures Put(r) in ws { }
      }
    }
  }

  // ---- Where two sources share an endpoint ----

  lemma TwoSourcesSorted(first: string, last: string)
    requires Orders.TextLeq(first, last) && first != last
    ensures SortedTexts({first, last}) == [first, last]
  {
    var items := [first, last];
    assert items[1..] == [last] && [last][1..] == [];
    assert Orders.Sort([last], Orders.TextLeq) == [last];
    assert Orders.Sort(items, Orders.TextLeq) == items;
    assert multiset(items) == multiset({first, last});
    SortIsSortedTexts(items, {first, last});
  }

  lemma CollapseOne(norm: string -> string, r: ImportRow)
    ensures Collapse(norm, [r], {}) == [r]
  {
    assert [r][..0] == [];
  }

  lemma TwoRowsImportable(norm: string -> string, z: ImportRow, a: ImportRow)
    requires z.source != a.source
    ensures Importable(norm, [z, a], {}, [a.source, z.source]) == [a, z]
  {
    var rows, order := [z, a], [a.source, z.source];
    assert rows[..1] == [z] && rows[..1][..0] == [];
    assert RowsOf([z], z.source) == [z] && RowsOf([z], a.source) == [];
    assert RowsOf(rows, a.source) == [a] && RowsOf(rows, z.source) == [z];
    CollapseOne(norm, a);
    CollapseOne(norm, z);
    assert order[..1] == [a.source] && order[..1][..0] == [];
    assert Importable(norm, rows, {}, [a.source]) == [] + [a];
  }

  /**
   The batch says that source `z` has no offering any more where source `a`, sorted before it, now
   has one. In the batch's order both upserts are accepted; the plan puts `a` first, and is refused.
   */
  lemma PlanRefusedWhereBatchIsNot(norm: string -> string, base: Option<string>, was: ImportRow, z: ImportRow,
                                   a: ImportRow)
    requires was.source == z.source && Orders.TextLeq(a.source, z.source) && a.source != z.source && was.id != a.id
    requires KeyOf(norm, was) == KeyOf(norm, z) && KeyOf(norm, a).1 == KeyOf(norm, z).1
    requires was.content.listingType == a.content.listingType == GUARDED_TYPE != z.content.listingType
    ensures var t0 := Only(norm, base, was);
            && IndexOk(t0) && Runs(norm, base, t0, Puts([z, a]))
            && !Runs(norm, base, t0, Puts(Importable(norm, [z, a], {}, SortedTexts({a.source, z.source}))))
  {
    BatchOrderIsAccepted(norm, base, was, z, a);
    PlanOrderIsRefused(norm, base, was, z, a);
    TwoSourcesSorted(a.source, z.source);
    TwoRowsImportable(norm, z, a);
  }

  /** One active listing, as it was first imported. */
  function Only(norm: string -> string, base: Option<string>, was: ImportRow): Table {
    map[was.id := FreshRow(norm, base, was.id, was.content, was.source, was.at)]
  }

  /** The old offering is refreshed away first. */
  lemma BatchOrderIsAccepted(norm: string -> string, base: Option<string>, was: ImportRow, z: ImportRow, a: ImportRow)
    requires a.source != z.source && was.id != a.id && KeyOf(norm, was) == KeyOf(norm, z)
    requires z.content.listingType != GUARDED_TYPE
    ensures IndexOk(Only(norm, base, was)) && Runs(norm, base, Only(norm, base, was), Puts([z, a]))
  {
    var t0 := Only(norm, base, was);
    assert At(t0, was.id, KeyOf(norm, z));
    ResyncRefusedIff(norm, base, t0, z, was.id);
    UpsertIs(norm, base, t0, z, was.id);
    var t1 := Upserted(norm, base, t0, z);
    assert t1.Keys == {was.id} && !Guarded(t1[was.id]);
    forall id ensures !At(t1, id, KeyOf(norm, a)) { }
    FirstImportRefusedIff(norm, base, t1, a);
    TwoPuts(norm, base, t0, z, a);
  }

  /** The old offering is still there. */
  lemma PlanOrderIsRefused(norm: string -> string, base: Option<string>, was: ImportRow, z: ImportRow, a: ImportRow)
    requires was.source == z.source && a.source != z.source && was.id != a.id
    requires KeyOf(norm, was) == KeyOf(norm, z) && KeyOf(norm, a).1 == KeyOf(norm, z).1
    requires was.content.listingType == a.content.listingType == GUARDED_TYPE
    ensures !Runs(norm, base, Only(norm, base, was), Puts([a, z]))
  {
    var t0 := Only(norm, base, was);
    assert !Known(t0, KeyOf(norm, a));
    FirstImportRefusedIff(norm, base, t0, a);
    assert IsDuplicate(t0, was.id, norm(a.content.endpointUrl), PLACEHOLDER, None, false);
    TwoPuts(norm, base, t0, a, z);
  }

  lemma TwoPuts(norm: string -> string, base: Option<string>, t: Table, r: ImportRow, p: ImportRow)
    ensures Runs(norm, base, t, Puts([r, p])) <==>
            UpsertOk(norm, base, t, r) && UpsertOk(norm, base, Upserted(norm, base, t, r), p)
  {
    OneMoreWrite(norm, base, t, [], Put(r));
    OneMoreWrite(norm, base, t, [Put(r)], Put(p));
    assert [] + [Put(r)] == [Put(r)] && [Put(r)] + [Put(p)] == Puts([r, p]);
  }
}
