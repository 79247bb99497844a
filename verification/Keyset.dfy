/**
 Keyset pagination. A view is what one page query can see of the table: the ids that match the
 filters, each with the value the search mode sorts by. A page is the top of the view below a cursor.
 */
module Keyset {
  import opened Wrappers
  import opened Orders

  type Id = string
  type View = map<Id, real>

  datatype Key = Key(value: real, id: Id)

  /** `next` is the cursor for the following page, absent on the last one. */
  datatype Page = Page(rows: seq<Key>, next: Option<Key>)

  /** The SQL row comparison `(value, id) < (cursor value, cursor id)`. */
  predicate Below(a: Key, b: Key) {
    a.value < b.value || (a.value == b.value && a.id != b.id && TextLeq(a.id, b.id))
  }

  /** ORDER BY value DESC, id DESC: `a` comes no later than `b`. */
  predicate NoLater(a: Key, b: Key) {
    a == b || Below(b, a)
  }

  lemma BelowTransitive(a: Key, b: Key, c: Key)
    requires Below(a, b) && Below(b, c)
    ensures Below(a, c)
  {
    if a.value == b.value == c.value {
      TextLeqTransitive(a.id, b.id, c.id);
      if a.id == c.id { TextLeqAntisymmetric(a.id, b.id); }
    }
  }

  lemma BelowTotal(a: Key, b: Key)
    ensures Below(a, b) || Below(b, a) || a == b
    ensures !(Below(a, b) && Below(b, a)) && !Below(a, a)
  {
    TextLeqTotal(a.id, b.id);
    if TextLeq(a.id, b.id) && TextLeq(b.id, a.id) { TextLeqAntisymmetric(a.id, b.id); }
  }

  lemma NoLaterIsTotalOrder()
    ensures TotalOrder(NoLater)
  {
    forall a, b ensures NoLater(a, b) || NoLater(b, a) { BelowTotal(a, b); }
    forall a, b | NoLater(a, b) && NoLater(b, a) ensures a == b { BelowTotal(a, b); }
    forall a, b, c | NoLater(a, b) && NoLater(b, c) ensures NoLater(a, c) {
      if a != b && b != c { BelowTransitive(c, b, a); }
    }
  }

  function KeysOf(v: View): set<Key> {
    set id | id in v :: Key(v[id], id)
  }

  predicate After(k: Key, cursor: Option<Key>) {
    cursor.None? || Below(k, cursor.value)
  }

  function Remaining(v: View, cursor: Option<Key>): View {
    map id | id in v && After(Key(v[id], id), cursor) :: v[id]
  }

  lemma RemainingKeys(v: View, cursor: Option<Key>)
    ensures forall k :: k in KeysOf(Remaining(v, cursor)) <==> k in KeysOf(v) && After(k, cursor)
  {
    forall k ensures k in KeysOf(Remaining(v, cursor)) <==> k in KeysOf(v) && After(k, cursor) {
      if k in KeysOf(v) && After(k, cursor) {
        assert k.id in Remaining(v, cursor);
      }
    }
  }

  ghost predicate IsRanking(s: seq<Key>, keys: set<Key>) {
    Ordered(s, NoLater) && multiset(s) == multiset(keys)
  }

  lemma {:induction false} RankingExists(keys: set<Key>)
    ensures exists s :: IsRanking(s, keys)
  {
    if keys == {} {
      assert IsRanking([], keys);
    } else {
      NoLaterIsTotalOrder();
      LeastExists(keys, NoLater);
      var k :| k in keys && forall other :: other in keys ==> NoLater(k, other);
      RankingExists(keys - {k});
      var s :| IsRanking(s, keys - {k});
      forall x | x in s ensures NoLater(k, x) { assert x in multiset(s); }
      assert keys == {k} + (keys - {k});
      assert IsRanking([k] + s, keys);
    }
  }

  /** The keys in display order, newest or best first. */
  ghost function Ranked(keys: set<Key>): (s: seq<Key>)
    ensures IsRanking(s, keys)
  {
    RankingExists(keys);
    var s :| IsRanking(s, keys);
    s
  }

  /** Display order is the only descending arrangement of the keys. */
  lemma RankedUnique(keys: set<Key>, s: seq<Key>)
    requires IsRanking(s, keys)
    ensures s == Ranked(keys)
  {
    NoLaterIsTotalOrder();
    OrderedUnique(s, Ranked(keys), NoLater);
  }

  function Take<T>(s: seq<T>, n: nat): seq<T> {
    if |s| <= n then s else s[..n]
  }

  function Drop<T>(s: seq<T>, n: nat): seq<T> {
    if |s| <= n then [] else s[n..]
  }

  /** Fetches `limit + 1` rows below the cursor; the extra row only says that more follow. */
  ghost function PageOf(v: View, cursor: Option<Key>, offset: nat, limit: nat): Page {
    var fetched := Take(Drop(Ranked(KeysOf(Remaining(v, cursor))), offset), limit + 1);
    var rows := Take(fetched, limit);
    Page(rows, if |rows| > 0 && |fetched| > limit then Some(rows[|rows| - 1]) else None)
  }

  lemma RankedDistinct(keys: set<Key>)
    ensures forall i, j :: 0 <= i < j < |Ranked(keys)| ==> Below(Ranked(keys)[j], Ranked(keys)[i])
    ensures forall k :: k in Ranked(keys) <==> k in keys
  {
    var r := Ranked(keys);
    forall k ensures k in r <==> k in keys {
      assert k in multiset(r) <==> k in multiset(keys);
    }
    forall i, j | 0 <= i < j < |r| ensures Below(r[j], r[i]) {
      assert r[j] in multiset(keys);
      assert r == r[..j] + r[j..] && r[j] == r[j..][0];
      assert multiset(r)[r[j]] == multiset(r[..j])[r[j]] + multiset(r[j..])[r[j]];
      assert r[i] == r[..j][i];
      assert r[i] in multiset(r[..j]) && r[j] !in multiset(r[..j]);
    }
  }

  /** In a strictly descending list, what follows the n-th element is exactly what is below it. */
  lemma SplitAt(r: seq<Key>, n: nat)
    requires 1 <= n <= |r|
    requires forall i, j :: 0 <= i < j < |r| ==> Below(r[j], r[i])
    ensures forall k :: k in r[n..] <==> k in r && Below(k, r[n - 1])
    ensures forall k :: k in r[..n] <==> k in r && !Below(k, r[n - 1])
  {
    forall i | 0 <= i < |r| ensures i < n <==> !Below(r[i], r[n - 1]) {
      BelowTotal(r[i], r[n - 1]);
    }
    forall k | k in r ensures Below(k, r[n - 1]) ==> k in r[n..]
                      ensures !Below(k, r[n - 1]) ==> k in r[..n] {
      var i :| 0 <= i < |r| && r[i] == k;
      if i < n { assert r[..n][i] == k; } else { assert r[n..][i - n] == k; }
    }
  }

  /** A first page is the first `limit` keys, and it has a successor exactly when there are more. */
  lemma PageIsPrefix(v: View, cursor: Option<Key>, limit: nat)
    requires limit >= 1
    ensures var p, r := PageOf(v, cursor, 0, limit), Ranked(KeysOf(Remaining(v, cursor)));
            && p.rows == Take(r, limit)
            && p.next == if |r| > limit then Some(r[limit - 1]) else None
  {
  }

  /** What one page shows: a key is on it exactly when it is below the cursor and not below `next`. */
  lemma PageContents(v: View, cursor: Option<Key>, limit: nat)
    requires limit >= 1
    ensures var p := PageOf(v, cursor, 0, limit);
            && (forall k :: k in p.rows <==>
                  k in KeysOf(v) && After(k, cursor) && (p.next.Some? ==> !Below(k, p.next.value)))
            && (forall i, j :: 0 <= i < j < |p.rows| ==> Below(p.rows[j], p.rows[i]))
            && (p.next.Some? ==> |p.rows| == limit && After(p.next.value, cursor))
            && |p.rows| <= limit
  {
    var keys := KeysOf(Remaining(v, cursor));
    RemainingKeys(v, cursor);
    RankedDistinct(keys);
    PageIsPrefix(v, cursor, limit);
    var r := Ranked(keys);
    if |r| > limit {
      SplitAt(r, limit);
      assert r[limit - 1] in r;
    }
  }

  lemma NextIsInView(v: View, cursor: Option<Key>, limit: nat, next: Key)
    requires limit >= 1 && PageOf(v, cursor, 0, limit).next == Some(next)
    ensures next in KeysOf(v)
  {
    PageContents(v, cursor, limit);
    PageIsPrefix(v, cursor, limit);
    var rows := PageOf(v, cursor, 0, limit).rows;
    assert next == rows[limit - 1];
  }

  /**
   A walk: `views[i]` is what the table shows when page `i` is fetched, so any writes may happen
   between pages. The walk stops at the first page without a next cursor.
   */
  ghost function Walk(views: seq<View>, cursor: Option<Key>, limit: nat): seq<seq<Key>> {
    if views == [] then []
    else
      var p := PageOf(views[0], cursor, 0, limit);
      [p.rows] + if p.next.None? then [] else Walk(views[1..], p.next, limit)
  }

  /** The walk ran until a page said there is no more. */
  ghost predicate Completed(views: seq<View>, cursor: Option<Key>, limit: nat) {
    views != [] &&
    var p := PageOf(views[0], cursor, 0, limit);
    p.next.Some? ==> Completed(views[1..], p.next, limit)
  }

  function TimesOn(rows: seq<Key>, id: Id): nat {
    if rows == [] then 0 else (if rows[0].id == id then 1 else 0) + TimesOn(rows[1..], id)
  }

  function TimesReturned(pages: seq<seq<Key>>, id: Id): nat {
    if pages == [] then 0 else TimesOn(pages[0], id) + TimesReturned(pages[1..], id)
  }

  lemma {:induction false} TimesOnDescending(rows: seq<Key>, id: Id)
    requires forall i, j :: 0 <= i < j < |rows| ==> rows[i].id != rows[j].id
    ensures TimesOn(rows, id) == if exists k :: k in rows && k.id == id then 1 else 0
  {
    if rows != [] {
      TimesOnDescending(rows[1..], id);
      if rows[0].id != id && exists k :: k in rows && k.id == id {
        var k :| k in rows && k.id == id;
        assert k in rows[1..];
      }
    }
  }

  /** How often a page returns an id. */
  lemma TimesOnPage(v: View, cursor: Option<Key>, limit: nat, id: Id)
    requires limit >= 1
    ensures var p := PageOf(v, cursor, 0, limit);
            TimesOn(p.rows, id) ==
            if id in v && After(Key(v[id], id), cursor) && (p.next.Some? ==> !Below(Key(v[id], id), p.next.value))
            then 1 else 0
  {
    PageContents(v, cursor, limit);
    var p := PageOf(v, cursor, 0, limit);
    forall i, j | 0 <= i < j < |p.rows| ensures p.rows[i].id != p.rows[j].id {
      assert p.rows[i] in p.rows && p.rows[j] in p.rows;
      assert p.rows[i] != p.rows[j];
    }
    TimesOnDescending(p.rows, id);
    if id in v { assert Key(v[id], id) in KeysOf(v); }
  }

  /** A row that is never below the cursor is never returned. */
  lemma {:induction false} PassedRowNeverReturned(views: seq<View>, cursor: Key, limit: nat, id: Id)
    requires limit >= 1
    requires forall i :: 0 <= i < |views| && id in views[i] ==> !Below(Key(views[i][id], id), cursor)
    ensures TimesReturned(Walk(views, Some(cursor), limit), id) == 0
    decreases |views|
  {
    if views != [] {
      TimesOnPage(views[0], Some(cursor), limit, id);
      PageContents(views[0], Some(cursor), limit);
      var p := PageOf(views[0], Some(cursor), 0, limit);
      if p.next.Some? {
        forall i | 0 <= i < |views| && id in views[i]
          ensures !Below(Key(views[i][id], id), p.next.value)
        {
          if Below(Key(views[i][id], id), p.next.value) {
            BelowTransitive(Key(views[i][id], id), p.next.value, cursor);
          }
        }
        PassedRowNeverReturned(views[1..], p.next.value, limit, id);
        assert Walk(views, Some(cursor), limit)[1..] == Walk(views[1..], p.next, limit);
      }
    }
  }

  ghost predicate Steady(views: seq<View>, id: Id, value: real) {
    forall i :: 0 <= i < |views| ==> id in views[i] && views[i][id] == value
  }

  /** Whatever is written between pages, a matching row that does not move is returned exactly once. */
  lemma {:induction false} SteadyRowReturnedOnce(views: seq<View>, cursor: Option<Key>, limit: nat, id: Id, value: real)
    requires limit >= 1 && Completed(views, cursor, limit)
    requires Steady(views, id, value) && After(Key(value, id), cursor)
    ensures TimesReturned(Walk(views, cursor, limit), id) == 1
    decreases |views|
  {
    var p := PageOf(views[0], cursor, 0, limit);
    TimesOnPage(views[0], cursor, limit, id);
    assert id in views[0];
    if p.next.Some? {
      assert Walk(views, cursor, limit)[1..] == Walk(views[1..], p.next, limit);
      if Below(Key(value, id), p.next.value) {
        SteadyRowReturnedOnce(views[1..], p.next, limit, id, value);
      } else {
        PassedRowNeverReturned(views[1..], p.next.value, limit, id);
      }
    }
  }

  /** The row's value never falls while the walk can see it; it may still leave and re-enter the view. */
  ghost predicate OnlyGrows(views: seq<View>, id: Id) {
    forall i, j :: 0 <= i <= j < |views| && id in views[i] && id in views[j] ==> views[i][id] <= views[j][id]
  }

  /** A row whose value only grows is returned at most once, whether or not the walk is finished. */
  lemma {:induction false} GrowingRowNeverRepeated(views: seq<View>, cursor: Option<Key>, limit: nat, id: Id)
    requires limit >= 1 && OnlyGrows(views, id)
    ensures TimesReturned(Walk(views, cursor, limit), id) <= 1
    decreases |views|
  {
    if views != [] {
      var p := PageOf(views[0], cursor, 0, limit);
      TimesOnPage(views[0], cursor, limit, id);
      if p.next.Some? {
        assert Walk(views, cursor, limit)[1..] == Walk(views[1..], p.next, limit);
        if TimesOn(p.rows, id) == 1 {
          forall i | 0 <= i < |views| && id in views[i]
            ensures !Below(Key(views[i][id], id), p.next.value)
          {
            assert views[0][id] <= views[i][id];
          }
          PassedRowNeverReturned(views[1..], p.next.value, limit, id);
        } else {
          GrowingRowNeverRepeated(views[1..], p.next, limit, id);
        }
      }
    }
  }

  // ---- Exactly when a row is repeated ----

  /** When its page is fetched, the row is in view, below the page's cursor and not below its next. */
  ghost predicate Shown(v: View, cursor: Option<Key>, limit: nat, id: Id) {
    var next := PageOf(v, cursor, 0, limit).next;
    id in v && After(Key(v[id], id), cursor) && (next.Some? ==> !Below(Key(v[id], id), next.value))
  }

  /** What matters of the pages for one row: where each leads, and whether it shows the row. */
  datatype Paging = Paging(next: (View, Option<Key>) -> Option<Key>, shows: (View, Option<Key>) -> bool)

  ghost function PagingFor(limit: nat, id: Id): Paging {
    Paging((v, cursor) => PageOf(v, cursor, 0, limit).next, (v, cursor) => Shown(v, cursor, limit, id))
  }

  /** The walk gets to page `i`, and the row is shown there. */
  ghost predicate Reached(p: Paging, views: seq<View>, cursor: Option<Key>, i: nat)
    decreases i
  {
    views != [] &&
    if i == 0 then p.shows(views[0], cursor)
    else p.next(views[0], cursor).Some? && Reached(p, views[1..], p.next(views[0], cursor), i - 1)
  }

  ghost predicate ReachedOnce(p: Paging, views: seq<View>, cursor: Option<Key>) {
    exists i: nat :: Reached(p, views, cursor, i)
  }

  ghost predicate ReachedTwice(p: Paging, views: seq<View>, cursor: Option<Key>) {
    exists i: nat, j: nat :: i < j && Reached(p, views, cursor, i) && Reached(p, views, cursor, j)
  }

  lemma ReachedLater(p: Paging, views: seq<View>, cursor: Option<Key>, i: nat)
    requires views != []
    ensures Reached(p, views, cursor, i + 1) <==>
            p.next(views[0], cursor).Some? && Reached(p, views[1..], p.next(views[0], cursor), i)
  { }

  lemma OnceOnward(p: Paging, views: seq<View>, cursor: Option<Key>)
    requires views != []
    ensures var next := p.next(views[0], cursor);
            ReachedOnce(p, views, cursor) <==>
              p.shows(views[0], cursor) || (next.Some? && ReachedOnce(p, views[1..], next))
  {
    var next := p.next(views[0], cursor);
    if i: nat :| Reached(p, views, cursor, i) {
      if i > 0 { ReachedLater(p, views, cursor, i - 1); }
    }
    if p.shows(views[0], cursor) { assert Reached(p, views, cursor, 0); }
    if i: nat :| Reached(p, views[1..], next, i) {
      ReachedLater(p, views, cursor, i);
    }
  }

  lemma TwiceOnward(p: Paging, views: seq<View>, cursor: Option<Key>)
    requires views != []
    ensures var next := p.next(views[0], cursor);
            ReachedTwice(p, views, cursor) <==>
            next.Some? && ((p.shows(views[0], cursor) && ReachedOnce(p, views[1..], next))
                           || ReachedTwice(p, views[1..], next))
  {
    var next := p.next(views[0], cursor);
    if i: nat, j: nat :| i < j && Reached(p, views, cursor, i) && Reached(p, views, cursor, j) {
      ReachedLater(p, views, cursor, j - 1);
      if i > 0 { ReachedLater(p, views, cursor, i - 1); }
    }
    if next.Some? {
      if j: nat :| Reached(p, views[1..], next, j) {
        ReachedLater(p, views, cursor, j);
        assert p.shows(views[0], cursor) ==> Reached(p, views, cursor, 0) && Reached(p, views, cursor, j + 1);
      }
      if i: nat, j: nat :| i < j && Reached(p, views[1..], next, i) && Reached(p, views[1..], next, j) {
        ReachedLater(p, views, cursor, i);
        ReachedLater(p, views, cursor, j);
        assert Reached(p, views, cursor, i + 1) && Reached(p, views, cursor, j + 1);
      }
    }
  }

  lemma TimesSplit(views: seq<View>, cursor: Option<Key>, limit: nat, id: Id)
    requires views != [] && limit >= 1
    ensures var p, next := PagingFor(limit, id), PageOf(views[0], cursor, 0, limit).next;
            && p.next(views[0], cursor) == next
            && TimesReturned(Walk(views, cursor, limit), id) ==
               (if p.shows(views[0], cursor) then 1 else 0)
               + (if next.None? then 0 else TimesReturned(Walk(views[1..], next, limit), id))
  {
    var page := PageOf(views[0], cursor, 0, limit);
    TimesOnPage(views[0], cursor, limit, id);
    TimesReturnedCons(page.rows, if page.next.None? then [] else Walk(views[1..], page.next, limit), id);
  }

  /** A walk returns a row exactly if some page shows it, and repeats it exactly if two of its pages do. */
  lemma {:induction false} RepeatedIff(views: seq<View>, cursor: Option<Key>, limit: nat, id: Id)
    requires limit >= 1
    ensures TimesReturned(Walk(views, cursor, limit), id) >= 1 <==> ReachedOnce(PagingFor(limit, id), views, cursor)
    ensures TimesReturned(Walk(views, cursor, limit), id) >= 2 <==> ReachedTwice(PagingFor(limit, id), views, cursor)
    decreases |views|
  {
    if views != [] {
      TimesSplit(views, cursor, limit, id);
      RepeatedIff(views[1..], PageOf(views[0], cursor, 0, limit).next, limit, id);
      OnceOnward(PagingFor(limit, id), views, cursor);
      TwiceOnward(PagingFor(limit, id), views, cursor);
    }
  }

  /** Pages lead downwards, and show the row only where it stands between their cursors. */
  ghost predicate Downward(p: Paging, id: Id) {
    && (forall v, c {:trigger p.next(v, Some(c))} :: p.next(v, Some(c)).Some? ==> Below(p.next(v, Some(c)).value, c))
    && (forall v, c {:trigger p.shows(v, c)} :: p.shows(v, c) ==> id in v && After(Key(v[id], id), c))
    && (forall v, c {:trigger p.shows(v, c), p.next(v, c)} ::
          p.shows(v, c) && p.next(v, c).Some? ==> !Below(Key(v[id], id), p.next(v, c).value))
  }

  lemma PagesGoDown(limit: nat, id: Id)
    requires limit >= 1
    ensures Downward(PagingFor(limit, id), id)
  {
    var p := PagingFor(limit, id);
    forall v, c | p.next(v, Some(c)).Some? ensures Below(p.next(v, Some(c)).value, c) {
      PageContents(v, Some(c), limit);
    }
  }

  /** Later pages show only what is below the cursor the walk had before them. */
  lemma {:induction false} ReachedIsBelow(p: Paging, views: seq<View>, cursor: Key, id: Id, j: nat)
    requires Downward(p, id) && Reached(p, views, Some(cursor), j)
    ensures j < |views| && id in views[j] && Below(Key(views[j][id], id), cursor)
    decreases j
  {
    if j > 0 {
      var next := p.next(views[0], Some(cursor));
      ReachedIsBelow(p, views[1..], next.value, id, j - 1);
      BelowTransitive(Key(views[j][id], id), next.value, cursor);
    }
  }

  lemma {:induction false} RepeatedHasFallen(p: Paging, views: seq<View>, cursor: Option<Key>, id: Id, i: nat, j: nat)
    requires Downward(p, id) && i < j && Reached(p, views, cursor, i) && Reached(p, views, cursor, j)
    ensures j < |views| && id in views[i] && id in views[j] && views[j][id] < views[i][id]
    decreases i
  {
    var next := p.next(views[0], cursor);
    if i == 0 {
      ReachedIsBelow(p, views[1..], next.value, id, j - 1);
      BelowCursorHasFallen(views[0][id], next.value, views[1..][j - 1][id], id);
    } else {
      RepeatedHasFallen(p, views[1..], next, id, i - 1, j - 1);
    }
  }

  /** So a row a walk repeats has fallen in between. */
  lemma RepeatedRowHasFallen(views: seq<View>, cursor: Option<Key>, limit: nat, id: Id)
    requires limit >= 1 && TimesReturned(Walk(views, cursor, limit), id) >= 2
    ensures exists i, j :: 0 <= i < j < |views| && id in views[i] && id in views[j] && views[j][id] < views[i][id]
  {
    var p := PagingFor(limit, id);
    RepeatedIff(views, cursor, limit, id);
    PagesGoDown(limit, id);
    var i: nat, j: nat :| i < j && Reached(p, views, cursor, i) && Reached(p, views, cursor, j);
    RepeatedHasFallen(p, views, cursor, id, i, j);
  }

  lemma BelowCursorHasFallen(was: real, next: Key, now: real, id: Id)
    requires !Below(Key(was, id), next) && Below(Key(now, id), next)
    ensures now < was
  {
    BelowTotal(Key(was, id), next);
    if Key(was, id) != next { BelowTransitive(Key(now, id), next, Key(was, id)); }
    BelowTotal(Key(now, id), Key(was, id));
  }

  const HIGH_A := Key(2.0, "a")
  const MID_B := Key(1.0, "b")
  const LOW_A := Key(0.0, "a")
  const V0: View := map["a" := 2.0, "b" := 1.0]
  const V1: View := map["a" := 0.0, "b" := 1.0]
  const V2: View := map["a" := 0.0]

  lemma TwoRowPage(v: View, cursor: Option<Key>, a: Key, b: Key)
    requires a.id != b.id && v == map[a.id := a.value, b.id := b.value]
    requires Below(b, a) && After(a, cursor) && After(b, cursor)
    ensures PageOf(v, cursor, 0, 1) == Page([a], Some(a))
  {
    assert KeysOf(v) == {a, b} by { assert a.id in v && b.id in v; }
    OnePageOf(v, cursor, [a, b], {a, b});
  }

  lemma OneRowPage(v: View, cursor: Option<Key>, a: Key)
    requires v == map[a.id := a.value] && After(a, cursor)
    ensures PageOf(v, cursor, 0, 1) == Page([a], None)
  {
    assert KeysOf(v) == {a} by { assert a.id in v; }
    OnePageOf(v, cursor, [a], {a});
  }

  /** Without growth the promise fails: a row that falls past the cursor is returned a second time. */
  lemma FallingRowIsRepeated()
    ensures Completed([V0, V1, V2], None, 1)
    ensures TimesReturned(Walk([V0, V1, V2], None, 1), "a") == 2
  {
    TwoRowPage(V0, None, HIGH_A, MID_B);
    TwoRowPage(V1, Some(HIGH_A), MID_B, LOW_A);
    OneRowPage(V2, Some(MID_B), LOW_A);
    ThreePages(V0, V1, V2, HIGH_A, MID_B, LOW_A);
  }

  /** A walk of three pages of one row each, and how often it returns an id. */
  lemma ThreePages(v: View, w: View, x: View, a: Key, b: Key, c: Key)
    requires PageOf(v, None, 0, 1) == Page([a], Some(a)) && PageOf(w, Some(a), 0, 1) == Page([b], Some(b))
    requires PageOf(x, Some(b), 0, 1) == Page([c], None)
    ensures Completed([v, w, x], None, 1)
    ensures forall id :: TimesReturned(Walk([v, w, x], None, 1), id) ==
                         (if a.id == id then 1 else 0) + (if b.id == id then 1 else 0) + (if c.id == id then 1 else 0)
  {
    assert [v, w, x][1..] == [w, x] && [w, x][1..] == [x];
    ShortWalk([x], Some(b), [c], None, []);
    ShortWalk([w, x], Some(a), [b], Some(b), [[c]]);
    ShortWalk([v, w, x], None, [a], Some(a), [[b]] + [[c]]);
    forall id
      ensures TimesReturned(Walk([v, w, x], None, 1), id) ==
              (if a.id == id then 1 else 0) + (if b.id == id then 1 else 0) + (if c.id == id then 1 else 0)
    {
      ThreeRowsCounted(a, b, c, id);
    }
  }

  lemma ThreeRowsCounted(a: Key, b: Key, c: Key, id: Id)
    ensures TimesReturned([[a]] + ([[b]] + [[c]]), id) ==
            (if a.id == id then 1 else 0) + (if b.id == id then 1 else 0) + (if c.id == id then 1 else 0)
  {
    TimesReturnedCons([c], [], id);
    TimesReturnedCons([b], [[c]], id);
    TimesReturnedCons([a], [[b]] + [[c]], id);
    assert [[c]] + [] == [[c]];
  }

  lemma TimesReturnedCons(rows: seq<Key>, rest: seq<seq<Key>>, id: Id)
    ensures TimesReturned([rows] + rest, id) == TimesOn(rows, id) + TimesReturned(rest, id)
  {
    assert ([rows] + rest)[1..] == rest;
  }

  lemma ShortWalk(views: seq<View>, cursor: Option<Key>, rows: seq<Key>, next: Option<Key>, rest: seq<seq<Key>>)
    requires views != [] && PageOf(views[0], cursor, 0, 1) == Page(rows, next)
    requires if next.None? then rest == [] else rest == Walk(views[1..], next, 1) && Completed(views[1..], next, 1)
    ensures Walk(views, cursor, 1) == [rows] + rest && Completed(views, cursor, 1)
  {
  }

  lemma OnePageOf(v: View, cursor: Option<Key>, ranked: seq<Key>, keys: set<Key>)
    requires IsRanking(ranked, keys) && |ranked| > 0
    requires KeysOf(v) == keys && forall k :: k in keys ==> After(k, cursor)
    ensures PageOf(v, cursor, 0, 1) == Page([ranked[0]], if |ranked| > 1 then Some(ranked[0]) else None)
  {
    RemainingKeys(v, cursor);
    assert KeysOf(Remaining(v, cursor)) == keys;
    RankedUnique(keys, ranked);
  }

  function Concat<T>(pages: seq<seq<T>>): seq<T> {
    if pages == [] then [] else pages[0] + Concat(pages[1..])
  }

  /** The next page starts where this one ended. */
  lemma NextPageContinues(v: View, cursor: Option<Key>, limit: nat)
    requires limit >= 1 && PageOf(v, cursor, 0, limit).next.Some?
    ensures var p, r := PageOf(v, cursor, 0, limit), Ranked(KeysOf(Remaining(v, cursor)));
            |r| > limit && p.rows == r[..limit] && Ranked(KeysOf(Remaining(v, p.next))) == r[limit..]
  {
    PageIsPrefix(v, cursor, limit);
    var keys := KeysOf(Remaining(v, cursor));
    var r := Ranked(keys);
    var next, rest := r[limit - 1], KeysOf(Remaining(v, Some(r[limit - 1])));
    RankedDistinct(keys);
    RemainingKeys(v, cursor);
    RemainingKeys(v, Some(next));
    assert next in r;
    forall k ensures k in rest <==> k in r && Below(k, next) {
      if Below(k, next) { BelowNextIsAfter(k, next, cursor); }
    }
    SplitAt(r, limit);
    SliceIsRanking(r, limit, keys, rest);
    RankedUnique(rest, r[limit..]);
  }

  lemma SliceIsRanking(r: seq<Key>, n: nat, keys: set<Key>, rest: set<Key>)
    requires n <= |r| && IsRanking(r, keys)
    requires forall k :: k in rest <==> k in r[n..]
    ensures IsRanking(r[n..], rest)
  {
    var tail := r[n..];
    assert r == r[..n] + tail;
    forall k ensures multiset(tail)[k] == multiset(rest)[k] {
      assert k in tail <==> k in multiset(tail);
      assert multiset(r)[k] == multiset(keys)[k] <= 1;
    }
  }

  lemma BelowNextIsAfter(k: Key, next: Key, cursor: Option<Key>)
    requires Below(k, next) && After(next, cursor)
    ensures After(k, cursor)
  {
    if cursor.Some? { BelowTransitive(k, next, cursor.value); }
  }

  ghost predicate AllSame(views: seq<View>, v: View) {
    forall i :: 0 <= i < |views| ==> views[i] == v
  }

  lemma ConcatCons<T>(page: seq<T>, rest: seq<seq<T>>)
    ensures Concat([page] + rest) == page + Concat(rest)
  {
    assert ([page] + rest)[1..] == rest;
  }

  /** With no writes, a finished walk's pages put end to end are the single sorted list. */
  lemma {:induction false} QuietWalkIsTheSortedList(views: seq<View>, v: View, cursor: Option<Key>, limit: nat)
    requires limit >= 1 && AllSame(views, v) && Completed(views, cursor, limit)
    ensures Concat(Walk(views, cursor, limit)) == Ranked(KeysOf(Remaining(v, cursor)))
    decreases |views|
  {
    var p := PageOf(v, cursor, 0, limit);
    assert views[0] == v;
    var rest := if p.next.None? then [] else Walk(views[1..], p.next, limit);
    ConcatCons(p.rows, rest);
    assert Walk(views, cursor, limit) == [p.rows] + rest;
    PageIsPrefix(v, cursor, limit);
    if p.next.Some? {
      NextPageContinues(v, cursor, limit);
      QuietWalkIsTheSortedList(views[1..], v, p.next, limit);
      var r := Ranked(KeysOf(Remaining(v, cursor)));
      assert r == r[..limit] + r[limit..];
    }
  }

  /** With no writes, a walk of enough pages always finishes. */
  lemma {:induction false} QuietWalkCompletes(views: seq<View>, v: View, cursor: Option<Key>, limit: nat)
    requires limit >= 1 && AllSame(views, v) && views != []
    requires |Ranked(KeysOf(Remaining(v, cursor)))| <= |views| * limit
    ensures Completed(views, cursor, limit)
    decreases |views|
  {
    var p := PageOf(v, cursor, 0, limit);
    assert views[0] == v;
    if p.next.Some? {
      NextPageContinues(v, cursor, limit);
      assert |views| * limit == (|views| - 1) * limit + limit;
      QuietWalkCompletes(views[1..], v, p.next, limit);
    }
  }
}
