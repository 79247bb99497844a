/** The import sync's promises, told of whole batches. */
module SyncTheorems {
  import opened Wrappers
  import opened Listings
  import opened Statements
  import opened Refusals
  import opened Batches
  import opened SyncRuns
  import opened SyncLaws
  import opened SyncRepeats
  import opened ImportSync

  // ---- A batch's writes ----

  lemma PutsAreCoherent(norm: string -> string, rows: seq<ImportRow>, importable: seq<ImportRow>, order: seq<string>,
                        markMissing: bool, at: Time)
    requires DistinctKeys(norm, importable)
    ensures Coherent(norm, PlanWrites(norm, rows, importable, order, markMissing, at))
  {
    var ws := PlanWrites(norm, rows, importable, order, markMissing, at);
    assert forall i :: 0 <= i < |ws| && ws[i].Put? ==> i < |importable| && ws[i].row == importable[i];
    assert forall i, j :: 0 <= i < j < |importable| ==> KeyOf(norm, importable[i]) != KeyOf(norm, importable[j]);
  }

  lemma BatchWritesAreSound(norm: string -> string, records: seq<Record>, source: Option<string>, ids: seq<Id>,
                            now: Time, blocked: set<SourceKey>, allowEmptySync: bool, markMissing: bool)
    requires |ids| == |records|
    ensures var ws := WritesOf(norm, records, source, ids, now, blocked, allowEmptySync, markMissing);
            Coherent(norm, ws) && Fits(norm, s => Seen(norm, ValidRows(records, source, ids, now), s), ws)
  {
    var rows := ValidRows(records, source, ids, now);
    var order := SortedTexts(SyncSources(rows, source, allowEmptySync));
    ImportableRepresents(norm, rows, blocked, order);
    ImportableMembers(norm, rows, blocked, order);
    PutsAreCoherent(norm, rows, Importable(norm, rows, blocked, order), order, markMissing, now);
    PlanFits(norm, rows, Importable(norm, rows, blocked, order), order, markMissing, now);
  }

  lemma PlanWritesAgree(norm: string -> string, rows: seq<ImportRow>, importable: seq<ImportRow>, rows': seq<ImportRow>,
                        importable': seq<ImportRow>, order: seq<string>, markMissing: bool, at: Time, at': Time)
    requires SameRows(rows, rows') && SameRows(importable, importable')
    ensures SameWrites(PlanWrites(norm, rows, importable, order, markMissing, at),
                       PlanWrites(norm, rows', importable', order, markMissing, at'))
  {
    forall s ensures Seen(norm, rows, s) == Seen(norm, rows', s) { SameRowsSeeTheSame(norm, rows, rows', s); }
  }

  /** The same batch, planned again with other ids at another time, asks for the same writes. */
  lemma ReplanAsksTheSame(norm: string -> string, records: seq<Record>, source: Option<string>, ids: seq<Id>, now: Time,
                          ids': seq<Id>, now': Time, blocked: set<SourceKey>, allowEmptySync: bool, markMissing: bool)
    requires |ids| == |records| == |ids'|
    ensures SameWrites(WritesOf(norm, records, source, ids, now, blocked, allowEmptySync, markMissing),
                       WritesOf(norm, records, source, ids', now', blocked, allowEmptySync, markMissing))
  {
    var rows, rows' := ValidRows(records, source, ids, now), ValidRows(records, source, ids', now');
    ReplannedRows(records, source, ids, now, ids', now');
    SameRowsSeeTheSame(norm, rows, rows', "");
    var order := SortedTexts(SyncSources(rows, source, allowEmptySync));
    ImportableSameRows(norm, rows, rows', blocked, order);
    PlanWritesAgree(norm, rows, Importable(norm, rows, blocked, order), rows', Importable(norm, rows', blocked, order),
                    order, markMissing, now, now');
  }

  lemma BatchEffect(norm: string -> string, base: Option<string>, t0: Table, records: seq<Record>,
                    source: Option<string>, ids: seq<Id>, now: Time, blocked: set<SourceKey>, allowEmptySync: bool,
                    markMissing: bool)
    requires |ids| == |records| && SourceUnique(t0)
    requires Runs(norm, base, t0, WritesOf(norm, records, source, ids, now, blocked, allowEmptySync, markMissing))
    ensures var rows := ValidRows(records, source, ids, now);
            Shape(norm, base, s => Seen(norm, rows, s), t0,
                  Effect(LastSaid(norm, rows, blocked),
                         if markMissing then SyncSources(rows, source, allowEmptySync) else {}),
                  After(norm, base, t0, WritesOf(norm, records, source, ids, now, blocked, allowEmptySync,
                                                 markMissing)))
  {
    var rows := ValidRows(records, source, ids, now);
    var sources := SyncSources(rows, source, allowEmptySync);
    var order := SortedTexts(sources);
    var importable := Importable(norm, rows, blocked, order);
    var ws := WritesOf(norm, records, source, ids, now, blocked, allowEmptySync, markMissing);
    BatchWritesAreSound(norm, records, source, ids, now, blocked, allowEmptySync, markMissing);
    RunsIsFresh(norm, base, t0, ws);
    RunHasShape(norm, base, s => Seen(norm, rows, s), t0, ws);
    ImportableRepresents(norm, rows, blocked, order);
    EveryKeyHasItsSource(norm, rows, blocked, order);
    RepresentsLastSaid(norm, importable, LastSaid(norm, rows, blocked));
    assert SetOf(order) == sources;
    if markMissing {
      PlanEffect(norm, rows, importable, order, now);
    } else {
      EffectOfPuts(norm, importable);
      assert ws == Puts(importable);
    }
  }

  // ---- The promises ----

  /**
   After a sync every unblocked endpoint of the batch shows what the batch said of it last, unless
   its listing is claimed and so keeps what it had; none of them is missing.
   */
  lemma SyncShowsTheBatch(norm: string -> string, base: Option<string>, t0: Table, records: seq<Record>,
                          source: Option<string>, ids: seq<Id>, now: Time, blocked: set<SourceKey>,
                          allowEmptySync: bool, markMissing: bool, k: SourceKey) returns (id: Id)
    requires |ids| == |records| && SourceUnique(t0)
    requires Runs(norm, base, t0, WritesOf(norm, records, source, ids, now, blocked, allowEmptySync, markMissing))
    requires k in LastSaid(norm, ValidRows(records, source, ids, now), blocked)
    ensures var t := After(norm, base, t0,
                           WritesOf(norm, records, source, ids, now, blocked, allowEmptySync, markMissing));
            && At(t, id, k) && t[id].missingSince.None?
            && t[id].content == if id in t0 && t0[id].claimed then t0[id].content
                 else Linked(base, id, LastSaid(norm, ValidRows(records, source, ids, now), blocked)[k])
  {
    var rows := ValidRows(records, source, ids, now);
    BatchEffect(norm, base, t0, records, source, ids, now, blocked, allowEmptySync, markMissing);
    id := PutsAreShown(norm, base, s => Seen(norm, rows, s), t0,
                       Effect(LastSaid(norm, rows, blocked),
                              if markMissing then SyncSources(rows, source, allowEmptySync) else {}),
                       After(norm, base, t0, WritesOf(norm, records, source, ids, now, blocked, allowEmptySync,
                                                      markMissing)), k);
  }

  /** And with marking, every active listing of a source in the sync that the batch no longer lists is marked. */
  lemma SyncMarksTheRest(norm: string -> string, base: Option<string>, t0: Table, records: seq<Record>,
                         source: Option<string>, ids: seq<Id>, now: Time, blocked: set<SourceKey>, allowEmptySync: bool,
                         id: Id)
    requires |ids| == |records| && SourceUnique(t0)
    requires Runs(norm, base, t0, WritesOf(norm, records, source, ids, now, blocked, allowEmptySync, true))
    ensures var t := After(norm, base, t0, WritesOf(norm, records, source, ids, now, blocked, allowEmptySync, true));
            var rows := ValidRows(records, source, ids, now);
            id in t && t[id].source.Some? && t[id].source.value in SyncSources(rows, source, allowEmptySync)
            && t[id].status.Active? && t[id].endpointKey !in Seen(norm, rows, t[id].source.value) ==>
              t[id].missingSince.Some?
  {
    var t := After(norm, base, t0, WritesOf(norm, records, source, ids, now, blocked, allowEmptySync, true));
    var rows := ValidRows(records, source, ids, now);
    BatchEffect(norm, base, t0, records, source, ids, now, blocked, allowEmptySync, true);
    if id in t && t[id].source.Some? && t[id].source.value in SyncSources(rows, source, allowEmptySync) {
      var src := t[id].source.value;
      NothingLeftToMark(norm, base, s => Seen(norm, rows, s), t0,
                        Effect(LastSaid(norm, rows, blocked), SyncSources(rows, source, allowEmptySync)), t, src);
      assert id in t && id !in VanishedIds(t, src, Seen(norm, rows, src));
    }
  }

  lemma ListedIsSeen(norm: string -> string, rows: seq<ImportRow>, source: string, key: string)
    ensures key in Seen(norm, rows, source) <==> Lists(norm, rows, (source, key))
  {
    if Lists(norm, rows, (source, key)) {
      var r :| r in rows && KeyOf(norm, r) == (source, key);
      assert r.source == source && norm(r.content.endpointUrl) == key;
    }
  }

  /**
   Exactly which listings are missing after a sync: not one the batch upserts; of the others one that was
   missing, or, if the sync marks, an active one of a source in the sync that the batch does not list.
   */
  lemma SyncMarksExactly(norm: string -> string, base: Option<string>, t0: Table, records: seq<Record>,
                         source: Option<string>, ids: seq<Id>, now: Time, blocked: set<SourceKey>,
                         allowEmptySync: bool, markMissing: bool, id: Id)
    requires |ids| == |records| && SourceUnique(t0)
    requires Runs(norm, base, t0,
                  WritesOf(norm, records, source, ids, now, blocked, allowEmptySync, markMissing))
    requires id in After(norm, base, t0,
                         WritesOf(norm, records, source, ids, now, blocked, allowEmptySync, markMissing))
    ensures var after := After(norm, base, t0,
                               WritesOf(norm, records, source, ids, now, blocked, allowEmptySync, markMissing))[id];
            var rows := ValidRows(records, source, ids, now);
            && (id !in t0 ==> after.missingSince.None?)
            && (id in t0 && t0[id].source.None? ==> (after.missingSince.Some? <==> t0[id].missingSince.Some?))
            && (id in t0 && t0[id].source.Some? ==>
                  var src, key := t0[id].source.value, t0[id].endpointKey;
                  var synced := (exists r <- rows :: r.source == src)
                             || (allowEmptySync && source == Some(src) && src != "");
                  after.missingSince.Some? <==>
                    && ((src, key) in blocked || !Lists(norm, rows, (src, key)))
                    && (t0[id].missingSince.Some?
                        || (markMissing && synced && t0[id].status == Active && !Lists(norm, rows, (src, key)))))
  {
    var t := After(norm, base, t0, WritesOf(norm, records, source, ids, now, blocked, allowEmptySync, markMissing));
    var rows := ValidRows(records, source, ids, now);
    BatchEffect(norm, base, t0, records, source, ids, now, blocked, allowEmptySync, markMissing);
    MissingAfter(norm, base, s => Seen(norm, rows, s), t0,
                 Effect(LastSaid(norm, rows, blocked),
                        if markMissing then SyncSources(rows, source, allowEmptySync) else {}),
                 t, id);
    if id in t0 && t0[id].source.Some? {
      var src, key := t0[id].source.value, t0[id].endpointKey;
      LastSaidKeys(norm, rows, blocked, (src, key));
      ListedIsSeen(norm, rows, src, key);
      SourcesAre(rows, source, allowEmptySync, src);
    }
  }

  /** What goes missing by a sync was active before it, of a source in the sync, and is not in the batch. */
  lemma SyncMarksOnlyTheGone(norm: string -> string, base: Option<string>, t0: Table, records: seq<Record>,
                             source: Option<string>, ids: seq<Id>, now: Time, blocked: set<SourceKey>,
                             allowEmptySync: bool, markMissing: bool, id: Id)
    requires |ids| == |records| && SourceUnique(t0)
    requires Runs(norm, base, t0,
                  WritesOf(norm, records, source, ids, now, blocked, allowEmptySync, markMissing))
    requires var t := After(norm, base, t0,
                            WritesOf(norm, records, source, ids, now, blocked, allowEmptySync, markMissing));
             id in t && t[id].missingSince.Some? && (id in t0 ==> t0[id].missingSince.None?)
    ensures markMissing && id in t0 && t0[id].status == Active && t0[id].source.Some?
    ensures var src, rows := t0[id].source.value, ValidRows(records, source, ids, now);
            && ((exists r <- rows :: r.source == src) || (allowEmptySync && source == Some(src)))
            && forall r <- rows :: r.source == src ==> norm(r.content.endpointUrl) != t0[id].endpointKey
  {
    SyncMarksExactly(norm, base, t0, records, source, ids, now, blocked, allowEmptySync, markMissing, id);
  }

  /**
   A sync that would not be refused may stop after any number of its writes: planning and applying
   the same batch again is not refused either, and ends in the table one whole run ends in.
   */
  lemma SyncSurvivesCrash(norm: string -> string, base: Option<string>, t0: Table, records: seq<Record>,
                          source: Option<string>, ids: seq<Id>, now: Time, ids': seq<Id>, now': Time,
                          blocked: set<SourceKey>, allowEmptySync: bool, markMissing: bool, n: nat)
    requires IndexOk(t0) && |ids| == |records| == |ids'|
    requires var ws := WritesOf(norm, records, source, ids, now, blocked, allowEmptySync, markMissing);
             Runs(norm, base, t0, ws) && n <= |ws|
             && FreshIds(After(norm, base, t0, ws[..n]),
                         WritesOf(norm, records, source, ids', now', blocked, allowEmptySync, markMissing))
    ensures var ws, again := WritesOf(norm, records, source, ids, now, blocked, allowEmptySync, markMissing),
                             WritesOf(norm, records, source, ids', now', blocked, allowEmptySync, markMissing);
            var crashed := After(norm, base, t0, ws[..n]);
            Runs(norm, base, crashed, again)
            && Equivalent(base, t0, After(norm, base, t0, ws), After(norm, base, crashed, again))
  {
    var ws := WritesOf(norm, records, source, ids, now, blocked, allowEmptySync, markMissing);
    var again := WritesOf(norm, records, source, ids', now', blocked, allowEmptySync, markMissing);
    BatchWritesAreSound(norm, records, source, ids, now, blocked, allowEmptySync, markMissing);
    ReplanAsksTheSame(norm, records, source, ids, now, ids', now', blocked, allowEmptySync, markMissing);
    CrashAndRerunConverge(norm, base, s => Seen(norm, ValidRows(records, source, ids, now), s), t0, ws, n, again);
  }

  /** A completed sync repeated inserts nothing, marks nothing, is not refused, and moves only sync times. */
  lemma SyncTwiceIsQuiet(norm: string -> string, base: Option<string>, t0: Table, records: seq<Record>,
                         source: Option<string>, ids: seq<Id>, now: Time, ids': seq<Id>, now': Time,
                         blocked: set<SourceKey>, allowEmptySync: bool, markMissing: bool)
    requires IndexOk(t0) && |ids| == |records| == |ids'|
    requires Runs(norm, base, t0, WritesOf(norm, records, source, ids, now, blocked, allowEmptySync, markMissing))
    ensures var again := WritesOf(norm, records, source, ids', now', blocked, allowEmptySync, markMissing);
            var t := After(norm, base, t0,
                           WritesOf(norm, records, source, ids, now, blocked, allowEmptySync, markMissing));
            && (forall w <- again :: Quiet(norm, t, w))
            && Runs(norm, base, t, again) && OnlySynced(t, After(norm, base, t, again))
  {
    var ws := WritesOf(norm, records, source, ids, now, blocked, allowEmptySync, markMissing);
    var again := WritesOf(norm, records, source, ids', now', blocked, allowEmptySync, markMissing);
    BatchWritesAreSound(norm, records, source, ids, now, blocked, allowEmptySync, markMissing);
    ReplanAsksTheSame(norm, records, source, ids, now, ids', now', blocked, allowEmptySync, markMissing);
    RepeatIsQuiet(norm, base, s => Seen(norm, ValidRows(records, source, ids, now), s), t0, ws, again);
  }

  /**
   Collapsing is only economy: one row per endpoint leaves the table that upserting every unblocked
   record of the batch in turn would leave, for new, unclaimed and claimed listings alike.
   */
  lemma CollapsingChangesNothing(norm: string -> string, base: Option<string>, t0: Table, records: seq<Record>,
                                 source: Option<string>, ids: seq<Id>, now: Time, blocked: set<SourceKey>,
                                 allowEmptySync: bool)
    requires SourceUnique(t0) && |ids| == |records|
    requires var rows := ValidRows(records, source, ids, now);
             && Runs(norm, base, t0, Puts(Unblocked(norm, rows, blocked)))
             && Runs(norm, base, t0, WritesOf(norm, records, source, ids, now, blocked, allowEmptySync, false))
    ensures Equivalent(base, t0,
                       After(norm, base, t0, Puts(Unblocked(norm, ValidRows(records, source, ids, now), blocked))),
                       After(norm, base, t0, WritesOf(norm, records, source, ids, now, blocked, allowEmptySync, false)))
  {
    var rows := ValidRows(records, source, ids, now);
    var order := SortedTexts(SyncSources(rows, source, allowEmptySync));
    var each, collapsed := Puts(Unblocked(norm, rows, blocked)), Puts(Importable(norm, rows, blocked, order));
    assert WritesOf(norm, records, source, ids, now, blocked, allowEmptySync, false) == collapsed;
    RunsIsFresh(norm, base, t0, each);
    RunsIsFresh(norm, base, t0, collapsed);
    LastOneWins(norm, base, t0, rows, blocked, order);
  }

  /** Wherever a sync stops before its last upsert is made, no listing has gone missing by it. */
  lemma CrashBeforeMarkingStalesNothing(norm: string -> string, base: Option<string>, t0: Table,
                                        importable: seq<ImportRow>, n: nat)
    requires SourceUnique(t0) && n <= |importable| && Runs(norm, base, t0, Puts(importable)[..n])
    ensures NoneNewlyMissing(t0, After(norm, base, t0, Puts(importable)[..n]))
  {
    assert Puts(importable)[..n] == Puts(importable[..n]);
    RunsIsFresh(norm, base, t0, Puts(importable[..n]));
    UpsertsStaleNothing(norm, base, t0, importable[..n]);
  }

  // ---- Syncs that are never refused ----

  lemma UpsertWithoutOffering(norm: string -> string, base: Option<string>, t: Table, r: ImportRow)
    requires IndexOk(t) && (Known(t, KeyOf(norm, r)) || r.id !in t) && r.content.listingType != GUARDED_TYPE
    ensures UpsertOk(norm, base, t, r)
  {
    if id :| id in t && At(t, id, KeyOf(norm, r)) {
      ResyncRefusedIff(norm, base, t, r, id);
    } else {
      FirstImportRefusedIff(norm, base, t, r);
    }
  }

  ghost predicate NoOfferings(ws: seq<Write>) {
    forall w <- ws :: w.Put? ==> w.row.content.listingType != GUARDED_TYPE
  }

  lemma RunsWithoutOfferings(norm: string -> string, base: Option<string>, t0: Table, ws: seq<Write>)
    requires IndexOk(t0) && Fresh(norm, base, t0, ws) && NoOfferings(ws)
    ensures Runs(norm, base, t0, ws)
  {
    var inv := (i: nat, t: Table) => IndexOk(t);
    forall i: nat, u | i < |ws| ensures Advances(norm, base, inv, i, u, ws[i]) {
      assert ws[i] in ws;
      if IndexOk(u) && CanInsert(norm, u, ws[i]) {
        match ws[i]
        case Put(row) => UpsertWithoutOffering(norm, base, u, row);
        case Mark(source, seen, at) => MarkKeepsIndexes(u, source, seen, at);
      }
    }
    RunKeeps(norm, base, t0, ws, inv);
  }

  ghost predicate DistinctIds(ids: seq<Id>) {
    forall i, j :: 0 <= i < j < |ids| ==> ids[i] != ids[j]
  }

  /** A valid row is what one of the records says, under the id given to that record. */
  lemma {:induction false} RowOfRecord(records: seq<Record>, source: Option<string>, ids: seq<Id>, now: Time,
                                       r: ImportRow) returns (i: nat)
    requires |ids| == |records| && r in ValidRows(records, source, ids, now)
    ensures i < |records| && BuildRow(records[i], source, ids[i], now) == Ok(r)
  {
    i := |records| - 1;
    if r in ValidRows(records[..i], source, ids[..i], now) {
      i := RowOfRecord(records[..i], source, ids[..i], now, r);
    }
  }

  lemma RowsHaveContents(records: seq<Record>, source: Option<string>, ids: seq<Id>, now: Time)
    requires |ids| == |records|
    ensures forall r <- ValidRows(records, source, ids, now) ::
              r.id in ids && exists rec <- records :: rec.Record? && rec.content == r.content
  {
    forall r <- ValidRows(records, source, ids, now)
      ensures exists rec <- records :: rec.Record? && rec.content == r.content
    {
      var i := RowOfRecord(records, source, ids, now, r);
      assert records[i] in records && records[i].Record? && records[i].content == r.content;
    }
  }

  lemma SameIdSameRow(records: seq<Record>, source: Option<string>, ids: seq<Id>, now: Time, r: ImportRow, p: ImportRow)
    requires |ids| == |records| && DistinctIds(ids) && r.id == p.id
    requires r in ValidRows(records, source, ids, now) && p in ValidRows(records, source, ids, now)
    ensures r == p
  {
    var i := RowOfRecord(records, source, ids, now, r);
    var j := RowOfRecord(records, source, ids, now, p);
    BuiltRowHasItsId(records[i], source, ids[i], now);
    BuiltRowHasItsId(records[j], source, ids[j], now);
    assert ids[i] == ids[j] && i == j;
  }

  lemma BuiltRowHasItsId(rec: Record, source: Option<string>, id: Id, now: Time)
    ensures BuildRow(rec, source, id, now).Ok? ==> BuildRow(rec, source, id, now).value.id == id
  { }

  lemma RowsHaveOwnIds(records: seq<Record>, source: Option<string>, ids: seq<Id>, now: Time)
    requires |ids| == |records| && DistinctIds(ids)
    ensures var rows := ValidRows(records, source, ids, now);
            forall r, p :: r in rows && p in rows && r.id == p.id ==> r == p
  {
    var rows := ValidRows(records, source, ids, now);
    forall r, p | r in rows && p in rows && r.id == p.id ensures r == p {
      SameIdSameRow(records, source, ids, now, r, p);
    }
  }

  /** A batch without offerings, given ids that are new, is never refused: its laws hold with no further premise. */
  lemma SyncWithoutOfferingsRuns(norm: string -> string, base: Option<string>, t0: Table, records: seq<Record>,
                                 source: Option<string>, ids: seq<Id>, now: Time, blocked: set<SourceKey>,
                                 allowEmptySync: bool, markMissing: bool)
    requires IndexOk(t0) && |ids| == |records| && DistinctIds(ids) && forall id <- ids :: id !in t0
    requires forall rec <- records :: rec.Record? ==> rec.content.listingType != GUARDED_TYPE
    ensures var ws := WritesOf(norm, records, source, ids, now, blocked, allowEmptySync, markMissing);
            FreshIds(t0, ws) && Runs(norm, base, t0, ws)
  {
    var rows := ValidRows(records, source, ids, now);
    var order := SortedTexts(SyncSources(rows, source, allowEmptySync));
    var importable := Importable(norm, rows, blocked, order);
    var ws := WritesOf(norm, records, source, ids, now, blocked, allowEmptySync, markMissing);
    RowsHaveContents(records, source, ids, now);
    RowsHaveOwnIds(records, source, ids, now);
    ImportableRepresents(norm, rows, blocked, order);
    ImportableMembers(norm, rows, blocked, order);
    PutsAreImportable(norm, rows, importable, order, markMissing, now);
    FreshPuts(norm, t0, importable, rows);
    assert FreshIds(t0, ws);
    FreshIdsAreFresh(norm, base, t0, ws);
    forall w <- ws ensures w.Put? ==> w.row.content.listingType != GUARDED_TYPE {
      if w.Put? { assert w.row in importable && w.row in rows; }
    }
    RunsWithoutOfferings(norm, base, t0, ws);
  }

  lemma PutsAreImportable(norm: string -> string, rows: seq<ImportRow>, importable: seq<ImportRow>, order: seq<string>,
                          markMissing: bool, at: Time)
    ensures var ws := PlanWrites(norm, rows, importable, order, markMissing, at);
            && (forall i :: 0 <= i < |ws| && ws[i].Put? ==> i < |importable| && ws[i].row == importable[i])
            && forall w <- ws :: w.Put? ==> w.row in importable
  { }

  lemma FreshPuts(norm: string -> string, t0: Table, importable: seq<ImportRow>, rows: seq<ImportRow>)
    requires DistinctKeys(norm, importable) && forall r <- importable :: r in rows
    requires forall r, p :: r in rows && p in rows && r.id == p.id ==> r == p
    requires forall r <- rows :: r.id !in t0
    ensures forall i :: 0 <= i < |importable| ==> importable[i].id !in t0
    ensures forall i, j :: 0 <= i < j < |importable| ==> importable[i].id != importable[j].id
  {
    forall i, j | 0 <= i < j < |importable| ensures importable[i].id != importable[j].id {
      assert importable[i] in rows && importable[j] in rows;
      assert KeyOf(norm, importable[i]) != KeyOf(norm, importable[j]);
    }
  }
}
