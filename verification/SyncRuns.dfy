/**
 What a run of a sync's writes does to the table, whatever the order, the ids and the times. The
 effect of any run is determined by what it last put at each key and which sources it marked, so
 two runs with the same effect leave the same table up to fresh ids and timestamps.
 */
module SyncRuns {
  import opened Wrappers
  import opened Listings
  import opened Statements
  import opened Batches

  datatype Write = Put(row: ImportRow) | Mark(source: string, seen: set<string>, at: Time)

  ghost function Step(norm: string -> string, base: Option<string>, t: Table, w: Write): Table {
    match w
    case Put(row) => Upserted(norm, base, t, row)
    case Mark(source, seen, at) => Marked(t, source, seen, at)
  }

  ghost function After(norm: string -> string, base: Option<string>, t: Table, ws: seq<Write>): Table {
    if |ws| == 0 then t
    else Step(norm, base, After(norm, base, t, ws[..|ws| - 1]), ws[|ws| - 1])
  }

  /** An insertion brings an id the table does not have. */
  ghost predicate CanInsert(norm: string -> string, t: Table, w: Write) {
    w.Put? ==> Known(t, KeyOf(norm, w.row)) || w.row.id !in t
  }

  ghost predicate Accepts(norm: string -> string, base: Option<string>, t: Table, w: Write) {
    w.Put? ==> UpsertOk(norm, base, t, w.row)
  }

  /** No primary key is used twice. */
  ghost predicate Fresh(norm: string -> string, base: Option<string>, t: Table, ws: seq<Write>) {
    |ws| != 0 ==>
      var n := |ws| - 1;
      Fresh(norm, base, t, ws[..n]) && CanInsert(norm, After(norm, base, t, ws[..n]), ws[n])
  }

  /** No write is refused. */
  ghost predicate Runs(norm: string -> string, base: Option<string>, t: Table, ws: seq<Write>) {
    |ws| != 0 ==>
      var n := |ws| - 1;
      Runs(norm, base, t, ws[..n]) && Accepts(norm, base, After(norm, base, t, ws[..n]), ws[n])
  }

  lemma OneMoreWrite(norm: string -> string, base: Option<string>, t: Table, ws: seq<Write>, w: Write)
    ensures After(norm, base, t, ws + [w]) == Step(norm, base, After(norm, base, t, ws), w)
    ensures Runs(norm, base, t, ws + [w]) <==>
              Runs(norm, base, t, ws) && Accepts(norm, base, After(norm, base, t, ws), w)
  {
    assert (ws + [w])[..|ws|] == ws;
  }

  lemma {:induction false} RunsIsFresh(norm: string -> string, base: Option<string>, t: Table, ws: seq<Write>)
    requires Runs(norm, base, t, ws)
    ensures Fresh(norm, base, t, ws)
  {
    if |ws| != 0 { RunsIsFresh(norm, base, t, ws[..|ws| - 1]); }
  }

  lemma {:induction false} RunsPrefix(norm: string -> string, base: Option<string>, t: Table, ws: seq<Write>, n: nat)
    requires Runs(norm, base, t, ws) && n <= |ws|
    ensures Runs(norm, base, t, ws[..n])
    decreases |ws|
  {
    if n < |ws| {
      RunsPrefix(norm, base, t, ws[..|ws| - 1], n);
      assert ws[..|ws| - 1][..n] == ws[..n];
    } else {
      assert ws[..n] == ws;
    }
  }

  // ---- The effect of a run ----

  /** What was last put at each key, and which sources were marked. */
  datatype Effect = Effect(puts: map<SourceKey, Content>, marks: set<string>)

  function EffectOf(norm: string -> string, ws: seq<Write>): Effect {
    if |ws| == 0 then Effect(map[], {})
    else
      var e := EffectOf(norm, ws[..|ws| - 1]);
      match ws[|ws| - 1]
      case Put(row) => e.(puts := e.puts[KeyOf(norm, row) := row.content])
      case Mark(source, _, _) => e.(marks := e.marks + {source})
  }

  predicate FitsOne(norm: string -> string, seen: string -> set<string>, w: Write) {
    match w
    case Put(row) => norm(row.content.endpointUrl) in seen(row.source)
    case Mark(source, s, _) => s == seen(source)
  }

  /** All writes agree on the endpoints the batch listed, and put nothing else. */
  ghost predicate Fits(norm: string -> string, seen: string -> set<string>, ws: seq<Write>) {
    forall w <- ws :: FitsOne(norm, seen, w)
  }

  function Zero(o: Option<Time>): Option<Time> {
    if o.Some? then Some(0) else None
  }

  /** A row but for when it was last synced and since when it is missing. */
  function Settled(row: Row): Row {
    row.(lastSyncedAt := Zero(row.lastSyncedAt), missingSince := Zero(row.missingSince))
  }

  /** An imported row but for all its times. */
  function Undated(row: Row): Row {
    Settled(row).(createdAt := 0, updatedAt := 0, importedAt := Zero(row.importedAt))
  }

  function Touched(base: Option<string>, id: Id, row: Row, puts: map<SourceKey, Content>): Row {
    if row.source.Some? && (row.source.value, row.endpointKey) in puts
    then RefreshedRow(base, id, row, puts[(row.source.value, row.endpointKey)], 0)
    else row
  }

  /** What becomes of a row that was there before the run. */
  function Due(base: Option<string>, seen: string -> set<string>, id: Id, row: Row, e: Effect): Row {
    var touched := Touched(base, id, row, e.puts);
    if row.source.Some? && row.source.value in e.marks && Vanished(touched, row.source.value, seen(row.source.value))
    then touched.(missingSince := Some(0))
    else touched
  }

  ghost predicate IsDue(base: Option<string>, seen: string -> set<string>, t0: Table, e: Effect, id: Id, row: Row)
    requires id in t0
  {
    Settled(row) == Settled(Due(base, seen, id, t0[id], e))
  }

  /** A row the run added: it is the fresh row for its key, and nothing before the run had that key. */
  ghost predicate IsAdded(norm: string -> string, base: Option<string>, t0: Table, e: Effect, id: Id, row: Row) {
    && row.source.Some?
    && var k := (row.source.value, row.endpointKey);
       && k in e.puts && !Known(t0, k)
       && Undated(row) == Undated(FreshRow(norm, base, id, e.puts[k], k.0, 0))
  }

  lemma DueKeepsScope(base: Option<string>, seen: string -> set<string>, t0: Table, e: Effect, id: Id, row: Row)
    requires id in t0 && IsDue(base, seen, t0, e, id, row)
    ensures row.claimed == t0[id].claimed && row.status == t0[id].status && row.submittedBy == t0[id].submittedBy
    ensures row.isTest == t0[id].isTest && row.source == t0[id].source && row.endpointKey == t0[id].endpointKey
    ensures (row.source.Some? && (row.source.value, row.endpointKey) in e.puts) || row.content == t0[id].content
  {
    var due := Due(base, seen, id, t0[id], e);
    assert Settled(row).claimed == Settled(due).claimed && Settled(row).status == Settled(due).status
        && Settled(row).submittedBy == Settled(due).submittedBy && Settled(row).isTest == Settled(due).isTest
        && Settled(row).source == Settled(due).source && Settled(row).endpointKey == Settled(due).endpointKey
        && Settled(row).content == Settled(due).content;
  }

  lemma AddedScope(norm: string -> string, base: Option<string>, t0: Table, e: Effect, id: Id, row: Row)
    requires IsAdded(norm, base, t0, e, id, row)
    ensures !row.claimed && row.status.Active? && row.submittedBy == PLACEHOLDER && !row.isTest
  {
    var k := (row.source.value, row.endpointKey);
    var added := FreshRow(norm, base, id, e.puts[k], k.0, 0);
    assert Undated(row).claimed == Undated(added).claimed && Undated(row).status == Undated(added).status
        && Undated(row).submittedBy == Undated(added).submittedBy && Undated(row).isTest == Undated(added).isTest;
  }

  /** `t` is what the effect makes of `t0`, up to fresh ids and times. */
  ghost predicate Shape(norm: string -> string, base: Option<string>, seen: string -> set<string>, t0: Table, e: Effect,
                        t: Table) {
    && SourceUnique(t)
    && t0.Keys <= t.Keys
    && (forall id :: id in t0 ==> IsDue(base, seen, t0, e, id, t[id]))
    && (forall id :: id in t && id !in t0 ==> IsAdded(norm, base, t0, e, id, t[id]))
    && PutsShow(norm, seen, e, t)
  }

  ghost predicate PutsShow(norm: string -> string, seen: string -> set<string>, e: Effect, t: Table) {
    forall k :: k in e.puts ==> norm(e.puts[k].endpointUrl) == k.1 && k.1 in seen(k.0) && Known(t, k)
  }

  lemma ShapeKnows(norm: string -> string, base: Option<string>, seen: string -> set<string>, t0: Table, e: Effect,
                   t: Table, k: SourceKey)
    requires Shape(norm, base, seen, t0, e, t)
    ensures Known(t, k) <==> Known(t0, k) || k in e.puts
    ensures forall id :: id in t0 ==> (At(t, id, k) <==> At(t0, id, k))
  {
    forall id | id in t0 ensures At(t, id, k) <==> At(t0, id, k) {
      assert IsDue(base, seen, t0, e, id, t[id]);
    }
    if Known(t0, k) {
      var id :| id in t0 && At(t0, id, k);
      assert At(t, id, k);
    }
    if Known(t, k) {
      var id :| id in t && At(t, id, k);
      assert id !in t0 ==> IsAdded(norm, base, t0, e, id, t[id]);
      assert id in t0 ==> At(t0, id, k);
    }
  }

  /** Whose listing is missing after a run: one not put that was missing, or that a marking of its source reached. */
  lemma MissingAfter(norm: string -> string, base: Option<string>, seen: string -> set<string>, t0: Table, e: Effect,
                     t: Table, id: Id)
    requires Shape(norm, base, seen, t0, e, t) && id in t
    ensures id !in t0 ==> t[id].missingSince.None?
    ensures id in t0 ==>
              var row := t0[id];
              t[id].missingSince.Some? <==>
                && !(row.source.Some? && (row.source.value, row.endpointKey) in e.puts)
                && (row.missingSince.Some?
                    || (&& row.source.Some? && row.source.value in e.marks && row.status == Active
                        && row.endpointKey !in seen(row.source.value)))
  {
    if id in t0 {
      var row, due := t0[id], Due(base, seen, id, t0[id], e);
      assert IsDue(base, seen, t0, e, id, t[id]);
      assert Settled(t[id]).missingSince == Settled(due).missingSince;
    } else {
      var k := (t[id].source.value, t[id].endpointKey);
      assert IsAdded(norm, base, t0, e, id, t[id]);
      assert Undated(t[id]).missingSince == Undated(FreshRow(norm, base, id, e.puts[k], k.0, 0)).missingSince;
    }
  }

  // Row by row: a put at the row's own key, a put elsewhere, a mark.

  predicate Keyed(row: Row, k: SourceKey) {
    row.source == Some(k.0) && row.endpointKey == k.1
  }

  function WithPut(e: Effect, k: SourceKey, c: Content): Effect {
    e.(puts := e.puts[k := c])
  }

  lemma SettledRefresh(base: Option<string>, id: Id, row: Row, row': Row, c: Content, at: Time, at': Time)
    requires Settled(row) == Settled(row')
    ensures Settled(RefreshedRow(base, id, row, c, at)) == Settled(RefreshedRow(base, id, row', c, at'))
  {
    assert row' == row.(lastSyncedAt := row'.lastSyncedAt, missingSince := row'.missingSince);
  }

  lemma RefreshTwice(base: Option<string>, id: Id, row: Row, c: Content, at: Time, c': Content, at': Time)
    ensures RefreshedRow(base, id, RefreshedRow(base, id, row, c, at), c', at') == RefreshedRow(base, id, row, c', at')
  { }

  lemma PutOnDueRow(base: Option<string>, seen: string -> set<string>, id: Id, row0: Row, e: Effect, row: Row,
                    k: SourceKey, c: Content, at: Time)
    requires Settled(row) == Settled(Due(base, seen, id, row0, e))
    requires Keyed(row0, k) && k.1 in seen(k.0)
    ensures Settled(RefreshedRow(base, id, row, c, at)) == Settled(Due(base, seen, id, row0, WithPut(e, k, c)))
  {
    var due := Due(base, seen, id, row0, e);
    assert due == Touched(base, id, row0, e.puts);
    SettledRefresh(base, id, row, due, c, at, 0);
    if k in e.puts { RefreshTwice(base, id, row0, e.puts[k], 0, c, 0); }
    assert RefreshedRow(base, id, due, c, 0) == RefreshedRow(base, id, row0, c, 0);
    assert Due(base, seen, id, row0, WithPut(e, k, c)) == RefreshedRow(base, id, row0, c, 0);
  }

  lemma PutElsewhere(base: Option<string>, seen: string -> set<string>, id: Id, row0: Row, e: Effect, k: SourceKey,
                     c: Content)
    requires !Keyed(row0, k)
    ensures Due(base, seen, id, row0, WithPut(e, k, c)) == Due(base, seen, id, row0, e)
  { }

  lemma PutOnAddedRow(norm: string -> string, base: Option<string>, t0: Table, e: Effect, id: Id, row: Row,
                      k: SourceKey, c: Content, at: Time)
    requires IsAdded(norm, base, t0, e, id, row) && Keyed(row, k) && norm(c.endpointUrl) == k.1
    ensures IsAdded(norm, base, t0, WithPut(e, k, c), id, RefreshedRow(base, id, row, c, at))
  {
    var before := FreshRow(norm, base, id, e.puts[k], k.0, 0);
    var after := FreshRow(norm, base, id, c, k.0, 0);
    assert Undated(before) == Undated(row);
    assert !row.claimed && before.endpointKey == row.endpointKey by {
      assert Undated(before).claimed == Undated(row).claimed && Undated(before).endpointKey == Undated(row).endpointKey;
    }
    assert Undated(after) == Undated(before).(content := after.content, missingSince := None, lastSyncedAt := Some(0));
    assert Undated(RefreshedRow(base, id, row, c, at)) ==
           Undated(row).(content := after.content, missingSince := None, lastSyncedAt := Some(0));
  }

  lemma MarkOnDueRow(base: Option<string>, seen: string -> set<string>, id: Id, row0: Row, e: Effect, row: Row,
                     source: string, at: Time)
    requires Settled(row) == Settled(Due(base, seen, id, row0, e))
    ensures var marked := if Vanished(row, source, seen(source)) then row.(missingSince := Some(at)) else row;
            Settled(marked) == Settled(Due(base, seen, id, row0, e.(marks := e.marks + {source})))
  {
    var due := Due(base, seen, id, row0, e);
    assert row == due.(lastSyncedAt := row.lastSyncedAt, missingSince := row.missingSince);
    assert row.missingSince.None? == due.missingSince.None? by {
      assert Settled(row).missingSince == Settled(due).missingSince;
    }
    assert Settled(row.(missingSince := Some(at))) == Settled(row).(missingSince := Some(0));
  }

  lemma PutKeepsShape(norm: string -> string, base: Option<string>, seen: string -> set<string>, t0: Table, e: Effect,
                      t: Table, r: ImportRow)
    requires Shape(norm, base, seen, t0, e, t)
    requires Known(t, KeyOf(norm, r)) || r.id !in t
    requires norm(r.content.endpointUrl) in seen(r.source)
    ensures Shape(norm, base, seen, t0, WithPut(e, KeyOf(norm, r), r.content), Upserted(norm, base, t, r))
  {
    var k, after := KeyOf(norm, r), Upserted(norm, base, t, r);
    var e' := WithPut(e, k, r.content);
    UpsertKeys(norm, base, t, r);
    UpsertKeepsSources(norm, base, t, r);
    ShapeKnows(norm, base, seen, t0, e, t, k);
    forall id | id in t0 ensures IsDue(base, seen, t0, e', id, after[id]) {
      assert IsDue(base, seen, t0, e, id, t[id]);
      PutOnOldRow(norm, base, seen, t0, e, t, r, id);
    }
    forall id | id in after && id !in t0 ensures IsAdded(norm, base, t0, e', id, after[id]) {
      assert id in t ==> IsAdded(norm, base, t0, e, id, t[id]);
      PutOnNewRow(norm, base, t0, e, t, r, id);
    }
    PutShows(norm, base, seen, e, t, r);
  }

  lemma PutShows(norm: string -> string, base: Option<string>, seen: string -> set<string>, e: Effect, t: Table,
                 r: ImportRow)
    requires SourceUnique(t) && (Known(t, KeyOf(norm, r)) || r.id !in t)
    requires PutsShow(norm, seen, e, t) && norm(r.content.endpointUrl) in seen(r.source)
    ensures PutsShow(norm, seen, WithPut(e, KeyOf(norm, r), r.content), Upserted(norm, base, t, r))
  {
    forall k | k in e.puts || k == KeyOf(norm, r) ensures Known(Upserted(norm, base, t, r), k) {
      UpsertKnows(norm, base, t, r, k);
    }
  }

  lemma FreshIsAdded(norm: string -> string, base: Option<string>, t0: Table, e: Effect, r: ImportRow)
    requires !Known(t0, KeyOf(norm, r))
    ensures IsAdded(norm, base, t0, WithPut(e, KeyOf(norm, r), r.content), r.id,
                    FreshRow(norm, base, r.id, r.content, r.source, r.at))
  { }

  lemma PutOnNewRow(norm: string -> string, base: Option<string>, t0: Table, e: Effect, t: Table, r: ImportRow, id: Id)
    requires SourceUnique(t) && (Known(t, KeyOf(norm, r)) || (r.id !in t && !Known(t0, KeyOf(norm, r))))
    requires id in Upserted(norm, base, t, r) && (id in t ==> IsAdded(norm, base, t0, e, id, t[id]))
    ensures IsAdded(norm, base, t0, WithPut(e, KeyOf(norm, r), r.content), id, Upserted(norm, base, t, r)[id])
  {
    var k, after := KeyOf(norm, r), Upserted(norm, base, t, r);
    UpsertEffect(norm, base, t, r);
    if id !in t {
      FreshIsAdded(norm, base, t0, e, r);
    } else if At(t, id, k) {
      assert Known(t, k);
      PutOnAddedRow(norm, base, t0, e, id, t[id], k, r.content, r.at);
    } else {
      assert after[id] == t[id];
    }
  }

  lemma PutOnOldRow(norm: string -> string, base: Option<string>, seen: string -> set<string>, t0: Table, e: Effect,
                    t: Table, r: ImportRow, id: Id)
    requires SourceUnique(t) && (Known(t, KeyOf(norm, r)) || r.id !in t)
    requires norm(r.content.endpointUrl) in seen(r.source)
    requires id in t0 && id in t && IsDue(base, seen, t0, e, id, t[id])
    requires At(t, id, KeyOf(norm, r)) <==> At(t0, id, KeyOf(norm, r))
    ensures id in Upserted(norm, base, t, r)
    ensures IsDue(base, seen, t0, WithPut(e, KeyOf(norm, r), r.content), id, Upserted(norm, base, t, r)[id])
  {
    var k := KeyOf(norm, r);
    UpsertEffect(norm, base, t, r);
    if At(t0, id, k) {
      PutOnDueRow(base, seen, id, t0[id], e, t[id], k, r.content, r.at);
    } else {
      PutElsewhere(base, seen, id, t0[id], e, k, r.content);
    }
  }

  lemma MarkKeepsShape(norm: string -> string, base: Option<string>, seen: string -> set<string>, t0: Table, e: Effect,
                       t: Table, source: string, at: Time)
    requires Shape(norm, base, seen, t0, e, t)
    ensures Shape(norm, base, seen, t0, e.(marks := e.marks + {source}), Marked(t, source, seen(source), at))
  {
    var after, e' := Marked(t, source, seen(source), at), e.(marks := e.marks + {source});
    MarkKeepsIndexes(t, source, seen(source), at);
    forall id | id in t0 ensures IsDue(base, seen, t0, e', id, after[id]) {
      assert IsDue(base, seen, t0, e, id, t[id]);
      MarkOnDueRow(base, seen, id, t0[id], e, t[id], source, at);
    }
    forall id | id in t && id !in t0 ensures IsAdded(norm, base, t0, e', id, after[id]) {
      MarkSparesAdded(norm, base, t0, e, id, t[id], source, seen);
    }
  }

  lemma MarkSparesAdded(norm: string -> string, base: Option<string>, t0: Table, e: Effect, id: Id, row: Row,
                        source: string, seen: string -> set<string>)
    requires IsAdded(norm, base, t0, e, id, row)
    requires row.endpointKey in seen(row.source.value)
    ensures !Vanished(row, source, seen(source))
  { }

  lemma {:induction false} RunHasShape(norm: string -> string, base: Option<string>, seen: string -> set<string>,
                                       t0: Table, ws: seq<Write>)
    requires SourceUnique(t0) && Fits(norm, seen, ws) && Fresh(norm, base, t0, ws)
    ensures Shape(norm, base, seen, t0, EffectOf(norm, ws), After(norm, base, t0, ws))
  {
    if |ws| != 0 {
      var n := |ws| - 1;
      assert forall w <- ws[..n] :: w in ws;
      RunHasShape(norm, base, seen, t0, ws[..n]);
      var e, t := EffectOf(norm, ws[..n]), After(norm, base, t0, ws[..n]);
      assert ws[n] in ws;
      match ws[n]
      case Put(row) => PutKeepsShape(norm, base, seen, t0, e, t, row);
      case Mark(source, s, at) => MarkKeepsShape(norm, base, seen, t0, e, t, source, at);
    }
  }

  // ---- Equal effects, equal tables ----

  /** The same listing under two ids: all but its times and its own template link. */
  ghost predicate Twins(base: Option<string>, a: Row, j: Id, b: Row) {
    Undated(b) == Undated(a.(content := Linked(base, j, a.content)))
  }

  /** Equal tables but for sync times and for the ids and times of rows added since `t0`. */
  ghost predicate Equivalent(base: Option<string>, t0: Table, t: Table, u: Table) {
    && SourceUnique(t) && SourceUnique(u)
    && t0.Keys <= t.Keys && t0.Keys <= u.Keys
    && (forall id :: id in t0 ==> Settled(t[id]) == Settled(u[id]))
    && (forall i :: i in t && i !in t0 ==> exists j :: j in u && j !in t0 && Twins(base, t[i], j, u[j]))
    && (forall j :: j in u && j !in t0 ==> exists i :: i in t && i !in t0 && Twins(base, u[j], i, t[i]))
  }

  lemma AddedRowsAreTwins(norm: string -> string, base: Option<string>, t0: Table, e: Effect, i: Id, a: Row, j: Id,
                          b: Row)
    requires IsAdded(norm, base, t0, e, i, a) && IsAdded(norm, base, t0, e, j, b) && SameImport(a, b)
    ensures Twins(base, a, j, b)
  {
    var k := (a.source.value, a.endpointKey);
    var c := e.puts[k];
    assert Undated(a).content == Linked(base, i, c) && Undated(b).content == Linked(base, j, c);
    assert Linked(base, j, a.content) == Linked(base, j, c);
    assert Undated(a.(content := Linked(base, j, c))) == Undated(a).(content := Linked(base, j, c));
    assert FreshRow(norm, base, j, c, k.0, 0) == FreshRow(norm, base, i, c, k.0, 0).(content := Linked(base, j, c));
  }

  lemma AddedTwin(norm: string -> string, base: Option<string>, seen: string -> set<string>, t0: Table, e: Effect,
                  t: Table, u: Table, i: Id) returns (j: Id)
    requires Shape(norm, base, seen, t0, e, t) && Shape(norm, base, seen, t0, e, u)
    requires i in t && i !in t0
    ensures j in u && j !in t0 && SameImport(t[i], u[j]) && Twins(base, t[i], j, u[j])
  {
    assert IsAdded(norm, base, t0, e, i, t[i]);
    var k := (t[i].source.value, t[i].endpointKey);
    assert Known(u, k);
    j :| j in u && At(u, j, k);
    ShapeKnows(norm, base, seen, t0, e, u, k);
    assert j !in t0 by {
      assert !Known(t0, k);
      assert j in t0 ==> At(t0, j, k);
    }
    AddedRowsAreTwins(norm, base, t0, e, i, t[i], j, u[j]);
  }

  lemma ShapeDetermines(norm: string -> string, base: Option<string>, seen: string -> set<string>, t0: Table, e: Effect,
                        t: Table, u: Table)
    requires Shape(norm, base, seen, t0, e, t) && Shape(norm, base, seen, t0, e, u)
    ensures Equivalent(base, t0, t, u)
  {
    forall id | id in t0 ensures Settled(t[id]) == Settled(u[id]) {
      assert IsDue(base, seen, t0, e, id, t[id]) && IsDue(base, seen, t0, e, id, u[id]);
    }
    forall i | i in t && i !in t0 ensures exists j :: j in u && j !in t0 && Twins(base, t[i], j, u[j]) {
      var j := AddedTwin(norm, base, seen, t0, e, t, u, i);
    }
    forall j | j in u && j !in t0 ensures exists i :: i in t && i !in t0 && Twins(base, u[j], i, t[i]) {
      var i := AddedTwin(norm, base, seen, t0, e, u, t, j);
    }
  }

  /** What the offering index looks at. */
  predicate SameScope(a: Row, b: Row) {
    Guarded(a) == Guarded(b) && a.isTest == b.isTest && a.endpointKey == b.endpointKey && a.submittedBy == b.submittedBy
  }

  /** So a run with that effect trips neither index where another with it did not. */
  lemma ShapeSharesIndexes(norm: string -> string, base: Option<string>, seen: string -> set<string>, t0: Table,
                           e: Effect, t: Table, u: Table)
    requires Shape(norm, base, seen, t0, e, t) && Shape(norm, base, seen, t0, e, u) && IndexOk(u)
    ensures IndexOk(t)
  {
    forall i, j | i in t && j in t && i != j ensures !SameOffering(t[i], t[j]) {
      var i', j' := i, j;
      if i !in t0 { i' := AddedTwin(norm, base, seen, t0, e, t, u, i); }
      if j !in t0 { j' := AddedTwin(norm, base, seen, t0, e, t, u, j); }
      assert i in t0 ==> IsDue(base, seen, t0, e, i, t[i]) && IsDue(base, seen, t0, e, i, u[i]);
      assert j in t0 ==> IsDue(base, seen, t0, e, j, t[j]) && IsDue(base, seen, t0, e, j, u[j]);
      assert SameScope(t[i], u[i']) && SameScope(t[j], u[j']);
      assert !SameImport(t[i], t[j]);
      assert i' != j';
      assert !SameOffering(u[i'], u[j']);
    }
  }
}
