/** A completed sync made again: nothing is inserted, nothing is marked, and only sync times move. */
module SyncRepeats {
  import opened Wrappers
  import opened Listings
  import opened Statements
  import opened SyncRuns
  import opened SyncLaws

  /** The write inserts nothing and finds nothing to mark. */
  predicate Quiet(norm: string -> string, t: Table, w: Write) {
    match w
    case Put(row) => Known(t, KeyOf(norm, row))
    case Mark(source, seen, _) => VanishedIds(t, source, seen) == {}
  }

  /** Refreshing a listing with what the write says moves its sync time and nothing else. */
  ghost predicate Still(norm: string -> string, base: Option<string>, t: Table, w: Write) {
    w.Put? ==> forall id :: id in t && At(t, id, KeyOf(norm, w.row)) ==>
      RefreshedRow(base, id, t[id], w.row.content, w.row.at) == t[id].(lastSyncedAt := Some(w.row.at))
  }

  predicate Synced(row: Row, after: Row) {
    after == row.(lastSyncedAt := after.lastSyncedAt)
  }

  /** The same table but for when rows were last synced. */
  ghost predicate OnlySynced(t: Table, u: Table) {
    t.Keys == u.Keys && forall id :: id in t ==> Synced(t[id], u[id])
  }

  lemma OnlySyncedKeepsIndexes(t: Table, u: Table)
    requires OnlySynced(t, u) && IndexOk(t)
    ensures IndexOk(u)
  {
    forall i, j | i in u && j in u && i != j ensures !SameImport(u[i], u[j]) && !SameOffering(u[i], u[j]) {
      assert Synced(t[i], u[i]) && Synced(t[j], u[j]);
      assert !SameImport(t[i], t[j]) && !SameOffering(t[i], t[j]);
    }
  }

  lemma SyncedRefresh(base: Option<string>, id: Id, row: Row, after: Row, c: Content, at: Time)
    requires Synced(row, after) && RefreshedRow(base, id, row, c, at) == row.(lastSyncedAt := Some(at))
    ensures Synced(row, RefreshedRow(base, id, after, c, at))
  {
    assert RefreshedRow(base, id, after, c, at) == RefreshedRow(base, id, row, c, at);
  }

  lemma QuietPut(norm: string -> string, base: Option<string>, t: Table, u: Table, r: ImportRow)
    requires IndexOk(t) && OnlySynced(t, u) && Quiet(norm, t, Put(r)) && Still(norm, base, t, Put(r))
    ensures OnlySynced(t, Upserted(norm, base, u, r)) && UpsertOk(norm, base, u, r)
  {
    var k, after := KeyOf(norm, r), Upserted(norm, base, u, r);
    OnlySyncedKeepsIndexes(t, u);
    var own :| own in t && At(t, own, k);
    assert Synced(t[own], u[own]) && At(u, own, k);
    UpsertKeys(norm, base, u, r);
    UpsertEffect(norm, base, u, r);
    forall id | id in t ensures Synced(t[id], after[id]) {
      assert Synced(t[id], u[id]);
      if At(u, id, k) {
        assert At(t, id, k);
        SyncedRefresh(base, id, t[id], u[id], r.content, r.at);
      }
    }
    OnlySyncedKeepsIndexes(t, after);
  }

  lemma QuietMark(t: Table, u: Table, source: string, seen: set<string>, at: Time)
    requires OnlySynced(t, u) && VanishedIds(t, source, seen) == {}
    ensures Marked(u, source, seen, at) == u
  {
    forall id | id in u ensures !Vanished(u[id], source, seen) {
      assert Synced(t[id], u[id]);
      assert id !in VanishedIds(t, source, seen);
    }
  }

  /** A run of quiet writes is never refused and moves only sync times. */
  lemma {:induction false} QuietRun(norm: string -> string, base: Option<string>, t: Table, ws: seq<Write>)
    requires IndexOk(t) && forall w <- ws :: Quiet(norm, t, w) && Still(norm, base, t, w)
    ensures Runs(norm, base, t, ws) && OnlySynced(t, After(norm, base, t, ws))
  {
    if |ws| == 0 {
      assert forall id :: id in t ==> Synced(t[id], t[id]);
    } else {
      var n := |ws| - 1;
      QuietRun(norm, base, t, ws[..n]);
      assert ws[n] in ws;
      var u := After(norm, base, t, ws[..n]);
      match ws[n]
      case Put(row) => QuietPut(norm, base, t, u, row);
      case Mark(source, seen, at) => QuietMark(t, u, source, seen, at);
    }
  }

  /** What a run put, put again, moves only sync times. */
  lemma PutAgainIsStill(norm: string -> string, base: Option<string>, seen: string -> set<string>, t0: Table, e: Effect,
                        t: Table, r: ImportRow)
    requires Shape(norm, base, seen, t0, e, t)
    requires KeyOf(norm, r) in e.puts && e.puts[KeyOf(norm, r)] == r.content
    ensures Quiet(norm, t, Put(r)) && Still(norm, base, t, Put(r))
  {
    var own := PutsAreShown(norm, base, seen, t0, e, t, KeyOf(norm, r));
    forall id | id in t && At(t, id, KeyOf(norm, r))
      ensures RefreshedRow(base, id, t[id], r.content, r.at) == t[id].(lastSyncedAt := Some(r.at))
    {
      KeyIsUnique(t, id, own, KeyOf(norm, r));
    }
  }

  lemma WriteAgainIsQuiet(norm: string -> string, base: Option<string>, seen: string -> set<string>, t0: Table,
                          ws: seq<Write>, t: Table, i: nat, w: Write)
    requires Shape(norm, base, seen, t0, EffectOf(norm, ws), t) && Coherent(norm, ws)
    requires i < |ws| && SameWrite(ws[i], w) && FitsOne(norm, seen, ws[i])
    ensures Quiet(norm, t, w) && Still(norm, base, t, w)
  {
    EffectHasWrite(norm, ws, i);
    match w
    case Put(row) => PutAgainIsStill(norm, base, seen, t0, EffectOf(norm, ws), t, row);
    case Mark(source, _, _) => NothingLeftToMark(norm, base, seen, t0, EffectOf(norm, ws), t, source);
  }

  /** A completed run made again inserts nothing, marks nothing, is not refused, and moves only sync times. */
  lemma RepeatIsQuiet(norm: string -> string, base: Option<string>, seen: string -> set<string>, t0: Table,
                      ws: seq<Write>, again: seq<Write>)
    requires IndexOk(t0) && Fits(norm, seen, ws) && Coherent(norm, ws) && Runs(norm, base, t0, ws)
    requires SameWrites(ws, again)
    ensures var t := After(norm, base, t0, ws);
            && (forall w <- again :: Quiet(norm, t, w))
            && Runs(norm, base, t, again) && OnlySynced(t, After(norm, base, t, again))
  {
    var t := After(norm, base, t0, ws);
    RunsIsFresh(norm, base, t0, ws);
    RunHasShape(norm, base, seen, t0, ws);
    RunKeepsIndexes(norm, base, t0, ws);
    forall i | 0 <= i < |again| ensures Quiet(norm, t, again[i]) && Still(norm, base, t, again[i]) {
      assert FitsOne(norm, seen, ws[i]) && SameWrite(ws[i], again[i]);
      WriteAgainIsQuiet(norm, base, seen, t0, ws, t, i, again[i]);
    }
    QuietRun(norm, base, t, again);
  }
}
