/** What the import sync promises of its writes: crash and re-run, last one wins, quiet repeats, exact previews. */
module SyncLaws {
  import opened Wrappers
  import opened Listings
  import opened Statements
  import opened Batches
  import opened SyncRuns

  // ---- A plan's writes ----

  function Puts(rows: seq<ImportRow>): seq<Write> {
    seq(|rows|, i requires 0 <= i < |rows| => Put(rows[i]))
  }

  function Marks(norm: string -> string, rows: seq<ImportRow>, order: seq<string>, at: Time): seq<Write> {
    seq(|order|, i requires 0 <= i < |order| => Mark(order[i], Seen(norm, rows, order[i]), at))
  }

  /** Every row, and only then the marking, source by source. */
  function PlanWrites(norm: string -> string, rows: seq<ImportRow>, importable: seq<ImportRow>, order: seq<string>,
                      markMissing: bool, at: Time): seq<Write> {
    Puts(importable) + if markMissing then Marks(norm, rows, order, at) else []
  }

  lemma {:induction false} EffectOfPuts(norm: string -> string, rows: seq<ImportRow>)
    ensures EffectOf(norm, Puts(rows)) == Effect(LastSaid(norm, rows, {}), {})
  {
    if |rows| != 0 {
      var n := |rows| - 1;
      EffectOfPuts(norm, rows[..n]);
      assert Puts(rows)[..n] == Puts(rows[..n]);
    }
  }

  lemma {:induction false} PlanEffect(norm: string -> string, rows: seq<ImportRow>, importable: seq<ImportRow>,
                                      order: seq<string>, at: Time)
    ensures EffectOf(norm, PlanWrites(norm, rows, importable, order, true, at)) ==
            Effect(LastSaid(norm, importable, {}), SetOf(order))
  {
    var ws := PlanWrites(norm, rows, importable, order, true, at);
    if |order| == 0 {
      EffectOfPuts(norm, importable);
      assert ws == Puts(importable);
    } else {
      var n := |order| - 1;
      PlanEffect(norm, rows, importable, order[..n], at);
      assert ws[..|ws| - 1] == PlanWrites(norm, rows, importable, order[..n], true, at);
      assert order == order[..n] + [order[n]];
    }
  }

  lemma PlanFits(norm: string -> string, rows: seq<ImportRow>, importable: seq<ImportRow>, order: seq<string>,
                 markMissing: bool, at: Time)
    requires forall r <- importable :: r in rows
    ensures Fits(norm, s => Seen(norm, rows, s), PlanWrites(norm, rows, importable, order, markMissing, at))
  {
    forall w <- PlanWrites(norm, rows, importable, order, markMissing, at)
      ensures FitsOne(norm, s => Seen(norm, rows, s), w)
    {
      if w.Put? {
        assert w.row in importable;
      }
    }
  }

  // ---- Indexes and ids along a run ----

  lemma {:induction false} RunKeepsIndexes(norm: string -> string, base: Option<string>, t0: Table, ws: seq<Write>)
    requires IndexOk(t0) && Runs(norm, base, t0, ws)
    ensures IndexOk(After(norm, base, t0, ws))
  {
    if |ws| != 0 {
      var n := |ws| - 1;
      RunKeepsIndexes(norm, base, t0, ws[..n]);
      match ws[n]
      case Put(row) =>
      case Mark(source, seen, at) => MarkKeepsIndexes(After(norm, base, t0, ws[..n]), source, seen, at);
    }
  }

  lemma {:induction false} RunAddsOnlyItsIds(norm: string -> string, base: Option<string>, t: Table, ws: seq<Write>)
    ensures forall id :: id in After(norm, base, t, ws) ==>
              id in t || exists i :: 0 <= i < |ws| && ws[i].Put? && ws[i].row.id == id
  {
    if |ws| != 0 {
      var n := |ws| - 1;
      RunAddsOnlyItsIds(norm, base, t, ws[..n]);
      if ws[n].Put? { UpsertKeys(norm, base, After(norm, base, t, ws[..n]), ws[n].row); }
    }
  }

  /** The ids a run brings are new to the table and to each other. */
  ghost predicate FreshIds(t: Table, ws: seq<Write>) {
    && (forall i :: 0 <= i < |ws| && ws[i].Put? ==> ws[i].row.id !in t)
    && (forall i, j :: 0 <= i < j < |ws| && ws[i].Put? && ws[j].Put? ==> ws[i].row.id != ws[j].row.id)
  }

  lemma {:induction false} FreshIdsAreFresh(norm: string -> string, base: Option<string>, t: Table, ws: seq<Write>)
    requires FreshIds(t, ws)
    ensures Fresh(norm, base, t, ws)
  {
    if |ws| != 0 {
      FreshIdsAreFresh(norm, base, t, ws[..|ws| - 1]);
      RunAddsOnlyItsIds(norm, base, t, ws[..|ws| - 1]);
    }
  }

  // ---- Crash and re-run ----

  /** The same writes but for ids and times. */
  ghost predicate SameWrites(a: seq<Write>, b: seq<Write>) {
    |a| == |b| && forall i :: 0 <= i < |a| ==> SameWrite(a[i], b[i])
  }

  predicate SameWrite(v: Write, w: Write) {
    match v
    case Put(row) => w.Put? && w.row.source == row.source && w.row.content == row.content
    case Mark(source, seen, _) => w.Mark? && w.source == source && w.seen == seen
  }

  /** Puts at one key put one content. */
  ghost predicate Coherent(norm: string -> string, ws: seq<Write>) {
    forall i, j :: 0 <= i < j < |ws| && ws[i].Put? && ws[j].Put? && KeyOf(norm, ws[i].row) == KeyOf(norm, ws[j].row) ==>
      ws[i].row.content == ws[j].row.content
  }

  /** A write already made adds nothing to the effect. */
  lemma {:induction false} EffectHasWrite(norm: string -> string, ws: seq<Write>, i: nat)
    requires Coherent(norm, ws) && i < |ws|
    ensures match ws[i]
            case Put(row) =>
              && KeyOf(norm, row) in EffectOf(norm, ws).puts
              && EffectOf(norm, ws).puts[KeyOf(norm, row)] == row.content
            case Mark(source, _, _) => source in EffectOf(norm, ws).marks
  {
    var n := |ws| - 1;
    if i < n {
      assert ws[..n][i] == ws[i];
      EffectHasWrite(norm, ws[..n], i);
    }
  }

  /** The first `n` writes fit, and make what their effect says with both indexes intact. */
  ghost predicate GoesTo(norm: string -> string, base: Option<string>, seen: string -> set<string>, t0: Table,
                         ws: seq<Write>, n: nat)
    requires n <= |ws|
  {
    && IndexOk(After(norm, base, t0, ws[..n]))
    && Shape(norm, base, seen, t0, EffectOf(norm, ws[..n]), After(norm, base, t0, ws[..n]))
    && (n > 0 ==> FitsOne(norm, seen, ws[n - 1]))
  }

  ghost predicate Goes(norm: string -> string, base: Option<string>, seen: string -> set<string>, t0: Table,
                       ws: seq<Write>) {
    forall n: nat :: n <= |ws| ==> GoesTo(norm, base, seen, t0, ws, n)
  }

  lemma RunGoes(norm: string -> string, base: Option<string>, seen: string -> set<string>, t0: Table, ws: seq<Write>)
    requires IndexOk(t0) && Fits(norm, seen, ws) && Runs(norm, base, t0, ws)
    ensures Goes(norm, base, seen, t0, ws)
  {
    forall n: nat | n <= |ws| ensures GoesTo(norm, base, seen, t0, ws, n) {
      assert forall w <- ws[..n] :: w in ws;
      RunsPrefix(norm, base, t0, ws, n);
      RunsIsFresh(norm, base, t0, ws[..n]);
      RunKeepsIndexes(norm, base, t0, ws[..n]);
      RunHasShape(norm, base, seen, t0, ws[..n]);
    }
  }

  function Later(n: nat, m: nat): nat {
    if n < m then m else n
  }

  /** Repeating write `m` after `n` of them, the first `m` repeated, has the effect of the longer prefix. */
  lemma EffectOfRepeat(norm: string -> string, ws: seq<Write>, n: nat, m: nat, w: Write)
    requires Coherent(norm, ws) && n <= |ws| && m < |ws| && SameWrite(ws[m], w)
    ensures var e, e' := EffectOf(norm, ws[..Later(n, m)]), EffectOf(norm, ws[..Later(n, m + 1)]);
            match w
            case Put(row) => e' == WithPut(e, KeyOf(norm, row), row.content)
            case Mark(source, _, _) => e' == e.(marks := e.marks + {source})
  {
    if m < n {
      assert ws[..n][m] == ws[m];
      EffectHasWrite(norm, ws[..n], m);
      var e := EffectOf(norm, ws[..n]);
      assert w.Put? ==> e.puts[KeyOf(norm, w.row) := w.row.content] == e.puts;
      assert w.Mark? ==> e.marks + {w.source} == e.marks;
    } else {
      assert ws[..m + 1][..m] == ws[..m];
    }
  }

  ghost predicate Advances(norm: string -> string, base: Option<string>, inv: (nat, Table) -> bool, i: nat, u: Table,
                           w: Write) {
    inv(i, u) && CanInsert(norm, u, w) ==> inv(i + 1, Step(norm, base, u, w)) && Accepts(norm, base, u, w)
  }

  /** Whatever every write keeps, and lets the next one through, holds at the end of a run. */
  lemma {:induction false} RunKeeps(norm: string -> string, base: Option<string>, t: Table, ws: seq<Write>,
                                    inv: (nat, Table) -> bool)
    requires Fresh(norm, base, t, ws) && inv(0, t)
    requires forall i: nat, u {:trigger Advances(norm, base, inv, i, u, ws[i])} :: i < |ws| ==>
                 Advances(norm, base, inv, i, u, ws[i])
    ensures inv(|ws|, After(norm, base, t, ws)) && Runs(norm, base, t, ws)
  {
    if |ws| != 0 {
      var n := |ws| - 1;
      forall i: nat, u | i < n ensures Advances(norm, base, inv, i, u, ws[..n][i]) {
        assert Advances(norm, base, inv, i, u, ws[i]);
      }
      RunKeeps(norm, base, t, ws[..n], inv);
      assert Advances(norm, base, inv, n, After(norm, base, t, ws[..n]), ws[n]);
    }
  }

  /** What `n` writes and then `m` of them again must have made. */
  ghost function Reaches(norm: string -> string, base: Option<string>, seen: string -> set<string>, t0: Table,
                         ws: seq<Write>, n: nat): (nat, Table) -> bool
    requires n <= |ws|
  {
    (m: nat, t: Table) => m <= |ws| && Shape(norm, base, seen, t0, EffectOf(norm, ws[..Later(n, m)]), t)
  }

  lemma RerunsReach(norm: string -> string, base: Option<string>, seen: string -> set<string>, t0: Table,
                    ws: seq<Write>, n: nat, m: nat, u: Table, w: Write)
    requires Goes(norm, base, seen, t0, ws) && Coherent(norm, ws)
    requires n <= |ws| && m < |ws| && SameWrite(ws[m], w)
    ensures Advances(norm, base, Reaches(norm, base, seen, t0, ws, n), m, u, w)
  {
    var inv := Reaches(norm, base, seen, t0, ws, n);
    if inv(m, u) && CanInsert(norm, u, w) {
      RerunNext(norm, base, seen, t0, ws, n, u, w, m);
    }
  }

  lemma RerunNext(norm: string -> string, base: Option<string>, seen: string -> set<string>, t0: Table, ws: seq<Write>,
                  n: nat, t: Table, w: Write, m: nat)
    requires Goes(norm, base, seen, t0, ws) && Coherent(norm, ws)
    requires n <= |ws| && m < |ws| && SameWrite(ws[m], w)
    requires Shape(norm, base, seen, t0, EffectOf(norm, ws[..Later(n, m)]), t)
    requires CanInsert(norm, t, w)
    ensures Shape(norm, base, seen, t0, EffectOf(norm, ws[..Later(n, m + 1)]), Step(norm, base, t, w))
    ensures Accepts(norm, base, t, w)
  {
    assert GoesTo(norm, base, seen, t0, ws, Later(n, m + 1)) && GoesTo(norm, base, seen, t0, ws, m + 1);
    EffectOfRepeat(norm, ws, n, m, w);
    RerunStep(norm, base, seen, t0, EffectOf(norm, ws[..Later(n, m)]), t, w,
              EffectOf(norm, ws[..Later(n, m + 1)]), After(norm, base, t0, ws[..Later(n, m + 1)]), ws[m]);
  }

  lemma RerunStep(norm: string -> string, base: Option<string>, seen: string -> set<string>, t0: Table, e: Effect,
                  t: Table, w: Write, e': Effect, u: Table, v: Write)
    requires Shape(norm, base, seen, t0, e, t) && Shape(norm, base, seen, t0, e', u) && IndexOk(u)
    requires CanInsert(norm, t, w)
    requires SameWrite(v, w) && FitsOne(norm, seen, v)
    requires match w
             case Put(row) => e' == WithPut(e, KeyOf(norm, row), row.content)
             case Mark(source, _, _) => e' == e.(marks := e.marks + {source})
    ensures Shape(norm, base, seen, t0, e', Step(norm, base, t, w))
    ensures Accepts(norm, base, t, w)
  {
    match w
    case Put(row) =>
      PutKeepsShape(norm, base, seen, t0, e, t, row);
      ShapeSharesIndexes(norm, base, seen, t0, e', Upserted(norm, base, t, row), u);
    case Mark(source, s, at) =>
      MarkKeepsShape(norm, base, seen, t0, e, t, source, at);
  }

  lemma RerunAdvances(norm: string -> string, base: Option<string>, seen: string -> set<string>, t0: Table,
                      ws: seq<Write>, n: nat, crashed: Table, again: seq<Write>)
    requires Goes(norm, base, seen, t0, ws) && Coherent(norm, ws)
    requires n <= |ws| && SameWrites(ws, again)
    requires Reaches(norm, base, seen, t0, ws, n)(0, crashed) && Fresh(norm, base, crashed, again)
    ensures Reaches(norm, base, seen, t0, ws, n)(|again|, After(norm, base, crashed, again))
    ensures Runs(norm, base, crashed, again)
  {
    forall i: nat, u | i < |again| ensures Advances(norm, base, Reaches(norm, base, seen, t0, ws, n), i, u, again[i]) {
      RerunsReach(norm, base, seen, t0, ws, n, i, u, again[i]);
    }
    RunKeeps(norm, base, crashed, again, Reaches(norm, base, seen, t0, ws, n));
  }

  lemma RerunShape(norm: string -> string, base: Option<string>, seen: string -> set<string>, t0: Table, ws: seq<Write>,
                   n: nat, crashed: Table, again: seq<Write>)
    requires Goes(norm, base, seen, t0, ws) && Coherent(norm, ws)
    requires n <= |ws| && SameWrites(ws, again)
    requires crashed == After(norm, base, t0, ws[..n]) && Fresh(norm, base, crashed, again)
    ensures Runs(norm, base, crashed, again)
    ensures Shape(norm, base, seen, t0, EffectOf(norm, ws), After(norm, base, crashed, again))
  {
    GoesAt(norm, base, seen, t0, ws, n);
    RerunAdvances(norm, base, seen, t0, ws, n, crashed, again);
    ReachedAll(norm, base, seen, t0, ws, n, After(norm, base, crashed, again));
  }

  lemma ReachedAll(norm: string -> string, base: Option<string>, seen: string -> set<string>, t0: Table, ws: seq<Write>,
                   n: nat, t: Table)
    requires n <= |ws| && Reaches(norm, base, seen, t0, ws, n)(|ws|, t)
    ensures Shape(norm, base, seen, t0, EffectOf(norm, ws), t)
  {
    assert ws[..Later(n, |ws|)] == ws;
    var e := EffectOf(norm, ws[..Later(n, |ws|)]);
    assert e == EffectOf(norm, ws);
    assert Shape(norm, base, seen, t0, e, t);
  }

  lemma GoesAt(norm: string -> string, base: Option<string>, seen: string -> set<string>, t0: Table, ws: seq<Write>,
               n: nat)
    requires Goes(norm, base, seen, t0, ws) && n <= |ws|
    ensures Reaches(norm, base, seen, t0, ws, n)(0, After(norm, base, t0, ws[..n]))
  {
    assert GoesTo(norm, base, seen, t0, ws, n);
    assert Later(n, 0) == n;
    assert Shape(norm, base, seen, t0, EffectOf(norm, ws[..n]), After(norm, base, t0, ws[..n]));
  }

  /**
   If a run would not be refused, stopping it after any `n` writes and then making all of them
   again, with other ids and times, is not refused either and ends in the same table.
   */
  lemma CrashAndRerunConverge(norm: string -> string, base: Option<string>, seen: string -> set<string>, t0: Table,
                              ws: seq<Write>, n: nat, again: seq<Write>)
    requires IndexOk(t0) && Fits(norm, seen, ws) && Coherent(norm, ws) && Runs(norm, base, t0, ws)
    requires n <= |ws| && SameWrites(ws, again)
    requires FreshIds(After(norm, base, t0, ws[..n]), again)
    ensures Runs(norm, base, After(norm, base, t0, ws[..n]), again)
    ensures Equivalent(base, t0, After(norm, base, t0, ws), After(norm, base, After(norm, base, t0, ws[..n]), again))
  {
    RunGoes(norm, base, seen, t0, ws);
    FreshIdsAreFresh(norm, base, After(norm, base, t0, ws[..n]), again);
    RerunShape(norm, base, seen, t0, ws, n, After(norm, base, t0, ws[..n]), again);
    RunsIsFresh(norm, base, t0, ws);
    RunHasShape(norm, base, seen, t0, ws);
    ShapeDetermines(norm, base, seen, t0, EffectOf(norm, ws), After(norm, base, t0, ws),
                    After(norm, base, After(norm, base, t0, ws[..n]), again));
  }

  // ---- Last one wins ----

  /**
   Writing one collapsed row per endpoint leaves the table that writing every unblocked row in
   turn leaves, whatever was there and whoever owned it.
   */
  lemma LastOneWins(norm: string -> string, base: Option<string>, t0: Table, rows: seq<ImportRow>,
                    blocked: set<SourceKey>, order: seq<string>)
    requires SourceUnique(t0)
    requires forall i, j :: 0 <= i < j < |order| ==> order[i] != order[j]
    requires SourcesOf(rows) <= SetOf(order)
    requires Fresh(norm, base, t0, Puts(Unblocked(norm, rows, blocked)))
    requires Fresh(norm, base, t0, Puts(Importable(norm, rows, blocked, order)))
    ensures Equivalent(base, t0, After(norm, base, t0, Puts(Unblocked(norm, rows, blocked))),
                       After(norm, base, t0, Puts(Importable(norm, rows, blocked, order))))
  {
    var each, collapsed := Unblocked(norm, rows, blocked), Importable(norm, rows, blocked, order);
    var said := LastSaid(norm, rows, blocked);
    ImportableRepresents(norm, rows, blocked, order);
    ImportableMembers(norm, rows, blocked, order);
    EveryKeyHasItsSource(norm, rows, blocked, order);
    RepresentsLastSaid(norm, collapsed, said);
    LastSaidOfUnblocked(norm, rows, blocked);
    EffectOfPuts(norm, each);
    EffectOfPuts(norm, collapsed);
    PlanFits(norm, rows, each, order, false, 0);
    PlanFits(norm, rows, collapsed, order, false, 0);
    var seen := s => Seen(norm, rows, s);
    assert PlanWrites(norm, rows, each, order, false, 0) == Puts(each);
    assert PlanWrites(norm, rows, collapsed, order, false, 0) == Puts(collapsed);
    FitsExtensional(norm, s => Seen(norm, rows, s), seen, Puts(each));
    FitsExtensional(norm, s => Seen(norm, rows, s), seen, Puts(collapsed));
    RunHasShape(norm, base, seen, t0, Puts(each));
    RunHasShape(norm, base, seen, t0, Puts(collapsed));
    ShapeDetermines(norm, base, seen, t0, Effect(said, {}), After(norm, base, t0, Puts(each)),
                    After(norm, base, t0, Puts(collapsed)));
  }

  lemma FitsExtensional(norm: string -> string, seen: string -> set<string>, seen': string -> set<string>,
                        ws: seq<Write>)
    requires Fits(norm, seen, ws) && forall s :: seen(s) == seen'(s)
    ensures Fits(norm, seen', ws)
  {
    forall w <- ws ensures FitsOne(norm, seen', w) { assert FitsOne(norm, seen, w); }
  }

  lemma EveryKeyHasItsSource(norm: string -> string, rows: seq<ImportRow>, blocked: set<SourceKey>, order: seq<string>)
    requires SourcesOf(rows) <= SetOf(order)
    ensures Of(LastSaid(norm, rows, blocked), SetOf(order)) == LastSaid(norm, rows, blocked)
  {
    forall k | k in LastSaid(norm, rows, blocked) ensures k.0 in SourcesOf(rows) {
      LastSaidKeys(norm, rows, blocked, k);
    }
  }

  // ---- What a run leaves alone ----

  /** No listing goes missing by upserts, however few or many of a plan's are made. */
  lemma {:induction false} UpsertsStaleNothing(norm: string -> string, base: Option<string>, t0: Table,
                                               rows: seq<ImportRow>)
    requires SourceUnique(t0) && Fresh(norm, base, t0, Puts(rows))
    ensures SourceUnique(After(norm, base, t0, Puts(rows)))
    ensures NoneNewlyMissing(t0, After(norm, base, t0, Puts(rows)))
  {
    if |rows| != 0 {
      var n := |rows| - 1;
      assert Puts(rows)[..n] == Puts(rows[..n]);
      UpsertsStaleNothing(norm, base, t0, rows[..n]);
      UpsertStalesNothing(norm, base, t0, After(norm, base, t0, Puts(rows[..n])), rows[n]);
    }
  }

  ghost predicate NoneNewlyMissing(t0: Table, t: Table) {
    forall id :: id in t && t[id].missingSince.Some? ==> id in t0 && t[id].missingSince == t0[id].missingSince
  }

  lemma UpsertStalesNothing(norm: string -> string, base: Option<string>, t0: Table, t: Table, r: ImportRow)
    requires SourceUnique(t) && (Known(t, KeyOf(norm, r)) || r.id !in t) && NoneNewlyMissing(t0, t)
    ensures SourceUnique(Upserted(norm, base, t, r)) && NoneNewlyMissing(t0, Upserted(norm, base, t, r))
  {
    UpsertEffect(norm, base, t, r);
    UpsertKeys(norm, base, t, r);
    UpsertKeepsSources(norm, base, t, r);
  }

  /** An endpoint the run put shows what it put last, unless its listing is claimed, and is not missing. */
  lemma PutsAreShown(norm: string -> string, base: Option<string>, seen: string -> set<string>, t0: Table, e: Effect,
                     t: Table, k: SourceKey) returns (id: Id)
    requires Shape(norm, base, seen, t0, e, t) && k in e.puts
    ensures At(t, id, k) && t[id].missingSince.None?
    ensures t[id].claimed <==> id in t0 && t0[id].claimed
    ensures t[id].content == if id in t0 && t0[id].claimed then t0[id].content else Linked(base, id, e.puts[k])
  {
    assert Known(t, k);
    id :| id in t && At(t, id, k);
    ShapeKnows(norm, base, seen, t0, e, t, k);
    if id in t0 {
      assert At(t0, id, k) && IsDue(base, seen, t0, e, id, t[id]);
      PutIsShownAt(base, seen, t0, e, id, t[id], k);
    } else {
      assert IsAdded(norm, base, t0, e, id, t[id]);
      AddedIsShown(norm, base, t0, e, id, t[id]);
    }
  }

  lemma PutIsShownAt(base: Option<string>, seen: string -> set<string>, t0: Table, e: Effect, id: Id, row: Row,
                     k: SourceKey)
    requires id in t0 && Keyed(t0[id], k) && k in e.puts && k.1 in seen(k.0) && IsDue(base, seen, t0, e, id, row)
    ensures row.missingSince.None? && row.claimed == t0[id].claimed
    ensures row.content == if t0[id].claimed then t0[id].content else Linked(base, id, e.puts[k])
  {
    var due := Due(base, seen, id, t0[id], e);
    assert due == RefreshedRow(base, id, t0[id], e.puts[k], 0);
    assert Settled(row).content == Settled(due).content && Settled(row).missingSince == Settled(due).missingSince
        && Settled(row).claimed == Settled(due).claimed;
  }

  lemma AddedIsShown(norm: string -> string, base: Option<string>, t0: Table, e: Effect, id: Id, row: Row)
    requires IsAdded(norm, base, t0, e, id, row)
    ensures row.missingSince.None? && !row.claimed
    ensures row.content == Linked(base, id, e.puts[(row.source.value, row.endpointKey)])
  {
    var added := FreshRow(norm, base, id, e.puts[(row.source.value, row.endpointKey)], row.source.value, 0);
    assert Undated(row).content == Undated(added).content && Undated(row).missingSince == Undated(added).missingSince
        && Undated(row).claimed == Undated(added).claimed;
  }

  /** A listing the run neither puts nor, by its source, marks is exactly as it was. */
  lemma {:induction false} OthersUntouched(norm: string -> string, base: Option<string>, t0: Table, ws: seq<Write>,
                                           id: Id)
    requires SourceUnique(t0) && Fresh(norm, base, t0, ws) && id in t0
    requires forall w <- ws :: if w.Put? then !At(t0, id, KeyOf(norm, w.row)) else t0[id].source != Some(w.source)
    ensures SourceUnique(After(norm, base, t0, ws))
    ensures id in After(norm, base, t0, ws) && After(norm, base, t0, ws)[id] == t0[id]
  {
    if |ws| != 0 {
      var n := |ws| - 1;
      OthersUntouched(norm, base, t0, ws[..n], id);
      assert ws[n] in ws;
      WriteSpares(norm, base, After(norm, base, t0, ws[..n]), ws[n], id);
    }
  }

  lemma WriteSpares(norm: string -> string, base: Option<string>, t: Table, w: Write, id: Id)
    requires SourceUnique(t) && CanInsert(norm, t, w) && id in t
    requires if w.Put? then !At(t, id, KeyOf(norm, w.row)) else t[id].source != Some(w.source)
    ensures SourceUnique(Step(norm, base, t, w)) && id in Step(norm, base, t, w) && Step(norm, base, t, w)[id] == t[id]
  {
    match w
    case Put(row) =>
      UpsertEffect(norm, base, t, row);
      UpsertKeys(norm, base, t, row);
      UpsertKeepsSources(norm, base, t, row);
    case Mark(source, seen, at) =>
      MarkKeepsIndexes(t, source, seen, at);
  }

  /** What would go missing from a source not marked yet is what would have at the start. */
  lemma MissingUnchanged(norm: string -> string, base: Option<string>, seen: string -> set<string>, t0: Table,
                         e: Effect, t: Table, source: string)
    requires Shape(norm, base, seen, t0, e, t) && source !in e.marks
    ensures VanishedIds(t, source, seen(source)) == VanishedIds(t0, source, seen(source))
  {
    forall id | id in t0 ensures Vanished(t[id], source, seen(source)) == Vanished(t0[id], source, seen(source)) {
      assert IsDue(base, seen, t0, e, id, t[id]);
      MissingUnchangedAt(base, seen, t0, e, id, t[id], source);
    }
    forall id | id in t && id !in t0 ensures !Vanished(t[id], source, seen(source)) {
      assert IsAdded(norm, base, t0, e, id, t[id]);
    }
  }

  lemma MissingUnchangedAt(base: Option<string>, seen: string -> set<string>, t0: Table, e: Effect, id: Id, row: Row,
                           source: string)
    requires id in t0 && IsDue(base, seen, t0, e, id, row) && source !in e.marks
    requires forall k :: k in e.puts ==> k.1 in seen(k.0)
    ensures Vanished(row, source, seen(source)) == Vanished(t0[id], source, seen(source))
  {
    var due := Due(base, seen, id, t0[id], e);
    assert Settled(row).source == Settled(due).source && Settled(row).endpointKey == Settled(due).endpointKey
        && Settled(row).status == Settled(due).status && Settled(row).missingSince == Settled(due).missingSince;
  }

  /** Nor is anything left to go missing from a source once it has been marked. */
  lemma NothingLeftToMark(norm: string -> string, base: Option<string>, seen: string -> set<string>, t0: Table,
                          e: Effect, t: Table, source: string)
    requires Shape(norm, base, seen, t0, e, t) && source in e.marks
    ensures VanishedIds(t, source, seen(source)) == {}
  {
    forall id | id in t ensures !Vanished(t[id], source, seen(source)) {
      if id in t0 {
        assert IsDue(base, seen, t0, e, id, t[id]);
        NothingLeftAt(base, seen, t0, e, id, t[id], source);
      } else {
        assert IsAdded(norm, base, t0, e, id, t[id]);
      }
    }
  }

  lemma NothingLeftAt(base: Option<string>, seen: string -> set<string>, t0: Table, e: Effect, id: Id, row: Row,
                      source: string)
    requires id in t0 && IsDue(base, seen, t0, e, id, row) && source in e.marks
    ensures !Vanished(row, source, seen(source))
  {
    var due := Due(base, seen, id, t0[id], e);
    assert Settled(row).source == Settled(due).source && Settled(row).endpointKey == Settled(due).endpointKey
        && Settled(row).status == Settled(due).status && Settled(row).missingSince == Settled(due).missingSince;
  }
}
