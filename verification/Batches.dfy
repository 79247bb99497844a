/** A batch of source records: which become rows, and which one row is written per endpoint. */
module Batches {
  import opened Wrappers
  import opened Orders
  import Texts
  import opened Listings
  import opened Statements

  /**
   One entry of a batch. `content` is what the record says once every rule but the one on its
   source has been applied; `problem` is the first of those rules it breaks, if any.
   */
  datatype Record = NotAnObject | Record(ownSource: Option<string>, problem: Option<string>, content: Content)

  datatype Reason = ExpectedAnObject | NoSource | BadSource | BadField(problem: string)

  datatype Rejection = Rejection(index: nat, reason: Reason)

  const SOURCE_MAX_LENGTH := 100

  predicate IsControl(c: char) {
    c <= '\U{8}' || c == '\U{b}' || c == '\U{c}' || '\U{e}' <= c <= '\U{1f}' || c == '\U{7f}'
  }

  function ValidateSource(raw: string): Result<string, Reason> {
    var s := Texts.Strip(raw);
    if 1 <= |s| <= SOURCE_MAX_LENGTH && forall c <- s :: !IsControl(c) then Ok(s) else Err(BadSource)
  }

  /** The caller's source wins; an empty one of the record's own counts as none. */
  function ResolveSource(own: Option<string>, source: Option<string>): Result<string, Reason> {
    if source.Some? then ValidateSource(source.value)
    else if own.None? || own.value == "" then Err(NoSource)
    else ValidateSource(own.value)
  }

  function BuildRow(rec: Record, source: Option<string>, id: Id, now: Time): Result<ImportRow, Reason> {
    if rec.NotAnObject? then Err(ExpectedAnObject)
    else
      var resolved := ResolveSource(rec.ownSource, source);
      if resolved.Err? then Err(resolved.error)
      else if rec.problem.Some? then Err(BadField(rec.problem.value))
      else Ok(ImportRow(id, resolved.value, rec.content, now))
  }

  /** Control characters, but for tab, line feed and carriage return. */
  lemma IsControlIff(c: char)
    ensures IsControl(c) <==> (c < ' ' && c != '\t' && c != '\n' && c != '\r') || c == '\U{7f}'
  { }

  /** A source name: not empty, at most 100 characters, and no control character. */
  predicate NamesSource(s: string) {
    1 <= |s| <= 100 && forall c <- s :: !IsControl(c)
  }

  lemma SourceIs(raw: string)
    ensures ValidateSource(raw) == if NamesSource(Texts.Strip(raw)) then Ok(Texts.Strip(raw)) else Err(BadSource)
  { }

  /**
   What becomes of a record. The caller's source, if given, is the row's; else the record's own, if it
   has one that is not empty. It counts without the space around it. A bad source is told before any
   other problem.
   */
  lemma RecordBecomes(rec: Record, source: Option<string>, id: Id, now: Time)
    ensures var row := BuildRow(rec, source, id, now);
            && (rec.NotAnObject? ==> row == Err(ExpectedAnObject))
            && (rec.Record? && source.None? && (rec.ownSource.None? || rec.ownSource.value == "") ==>
                  row == Err(NoSource))
            && (rec.Record? && (source.Some? || (rec.ownSource.Some? && rec.ownSource.value != "")) ==>
                  var name := Texts.Strip(if source.Some? then source.value else rec.ownSource.value);
                  row == if !NamesSource(name) then Err(BadSource)
                         else if rec.problem.Some? then Err(BadField(rec.problem.value))
                         else Ok(ImportRow(id, name, rec.content, now)))
  {
    if rec.Record? {
      if source.Some? {
        SourceIs(source.value);
      } else if rec.ownSource.Some? {
        SourceIs(rec.ownSource.value);
      }
    }
  }

  /** One fresh id per record, as each validated record gets its own. */
  function ValidRows(records: seq<Record>, source: Option<string>, ids: seq<Id>, now: Time): (rows: seq<ImportRow>)
    requires |ids| == |records|
    ensures |rows| <= |records|
    ensures forall r <- rows :: r.id in ids && r.at == now
  {
    if |records| == 0 then []
    else
      var n := |records| - 1;
      var rest := ValidRows(records[..n], source, ids[..n], now);
      var row := BuildRow(records[n], source, ids[n], now);
      if row.Ok? then rest + [row.value] else rest
  }

  function Rejections(records: seq<Record>, source: Option<string>): seq<Rejection> {
    if |records| == 0 then []
    else
      var n := |records| - 1;
      var row := BuildRow(records[n], source, "", 0);
      Rejections(records[..n], source) + if row.Err? then [Rejection(n, row.error)] else []
  }

  lemma {:induction false} ValidAndRejectedAddUp(
    records: seq<Record>, source: Option<string>, ids: seq<Id>, now: Time)
    requires |ids| == |records|
    ensures |ValidRows(records, source, ids, now)| + |Rejections(records, source)| == |records|
  {
    if |records| != 0 {
      var n := |records| - 1;
      ValidAndRejectedAddUp(records[..n], source, ids[..n], now);
      ReplannedRow(records[n], source, ids[n], now, "", 0);
    }
  }

  lemma {:induction false} RejectionHasCause(records: seq<Record>, source: Option<string>, x: Rejection)
    requires x in Rejections(records, source)
    ensures x.index < |records| && BuildRow(records[x.index], source, "", 0) == Err(x.reason)
  {
    var n := |records| - 1;
    if x in Rejections(records[..n], source) {
      RejectionHasCause(records[..n], source, x);
      assert records[..n][x.index] == records[x.index];
    }
  }

  lemma {:induction false} InvalidIsRejected(records: seq<Record>, source: Option<string>, i: nat)
      returns (x: Rejection)
    requires i < |records| && BuildRow(records[i], source, "", 0).Err?
    ensures x in Rejections(records, source) && x.index == i
  {
    var n := |records| - 1;
    if i == n {
      x := Rejection(n, BuildRow(records[n], source, "", 0).error);
    } else {
      assert records[..n][i] == records[i];
      x := InvalidIsRejected(records[..n], source, i);
    }
  }

  lemma EveryRecordIsValidOrRejected(records: seq<Record>, source: Option<string>, ids: seq<Id>, now: Time)
    requires |ids| == |records|
    ensures |ValidRows(records, source, ids, now)| + |Rejections(records, source)| == |records|
    ensures forall i :: 0 <= i < |records| ==>
              ((exists x <- Rejections(records, source) :: x.index == i) <==> BuildRow(records[i], source, "", 0).Err?)
    ensures forall x <- Rejections(records, source) ::
              x.index < |records| && BuildRow(records[x.index], source, "", 0) == Err(x.reason)
  {
    ValidAndRejectedAddUp(records, source, ids, now);
    forall x | x in Rejections(records, source)
      ensures x.index < |records| && BuildRow(records[x.index], source, "", 0) == Err(x.reason)
    {
      RejectionHasCause(records, source, x);
    }
    forall i | 0 <= i < |records| && BuildRow(records[i], source, "", 0).Err?
      ensures exists x <- Rejections(records, source) :: x.index == i
    {
      var x := InvalidIsRejected(records, source, i);
    }
  }

  // ---- Selections ----

  function Pick<T(!new)>(s: seq<T>, keep: T -> bool): (r: seq<T>)
    ensures |r| <= |s|
    ensures forall x :: x in r <==> x in s && keep(x)
  {
    if |s| == 0 then []
    else
      var rest := Pick(s[..|s| - 1], keep);
      if keep(s[|s| - 1]) then rest + [s[|s| - 1]] else rest
  }

  /** Two selections that share nothing and together are a third. */
  lemma {:induction false} PickSplits<T(!new)>(s: seq<T>, whole: T -> bool, a: T -> bool, b: T -> bool)
    requires forall x <- s :: (whole(x) <==> a(x) || b(x)) && !(a(x) && b(x))
    ensures multiset(Pick(s, whole)) == multiset(Pick(s, a)) + multiset(Pick(s, b))
    ensures |Pick(s, whole)| == |Pick(s, a)| + |Pick(s, b)|
  {
    if |s| != 0 {
      PickSplits(s[..|s| - 1], whole, a, b);
    }
  }

  lemma {:induction false} PickSame<T(!new)>(s: seq<T>, a: T -> bool, b: T -> bool)
    requires forall x <- s :: a(x) == b(x)
    ensures Pick(s, a) == Pick(s, b)
  {
    if |s| != 0 {
      PickSame(s[..|s| - 1], a, b);
    }
  }

  function RowsOf(rows: seq<ImportRow>, source: string): seq<ImportRow> {
    Pick(rows, (r: ImportRow) => r.source == source)
  }

  function Unblocked(norm: string -> string, rows: seq<ImportRow>, blocked: set<SourceKey>): seq<ImportRow> {
    Pick(rows, (r: ImportRow) => KeyOf(norm, r) !in blocked)
  }

  function Blocked(norm: string -> string, rows: seq<ImportRow>, blocked: set<SourceKey>): seq<ImportRow> {
    Pick(rows, (r: ImportRow) => KeyOf(norm, r) in blocked)
  }

  function SourcesOf(rows: seq<ImportRow>): set<string> {
    set r <- rows :: r.source
  }

  function SetOf(texts: seq<string>): set<string> {
    set s <- texts
  }

  /** The normalised endpoints a batch lists for a source. */
  function Seen(norm: string -> string, rows: seq<ImportRow>, source: string): set<string> {
    set r <- rows | r.source == source :: norm(r.content.endpointUrl)
  }

  /** The texts of a set in code-point order. */
  ghost function SortedTexts(s: set<string>): (r: seq<string>)
    ensures forall x :: x in r <==> x in s
    ensures forall i, j :: 0 <= i < j < |r| ==> r[i] != r[j]
    decreases |s|
  {
    if s == {} then []
    else
      TextLeqIsTotalOrder();
      LeastExists(s, TextLeq);
      var m :| m in s && forall x :: x in s ==> TextLeq(m, x);
      [m] + SortedTexts(s - {m})
  }

  lemma {:induction false} SortedTextsOrdered(s: set<string>)
    ensures Ordered(SortedTexts(s), TextLeq)
    decreases |s|
  {
    if s != {} {
      var r := SortedTexts(s);
      TextLeqIsTotalOrder();
      SortedTextsOrdered(s - {r[0]});
      assert r[1..] == SortedTexts(s - {r[0]});
      forall i, j | 0 <= i < j < |r| ensures TextLeq(r[i], r[j]) {
        assert r[j] in s;
        assert i > 0 ==> r[i] == r[1..][i - 1] && r[j] == r[1..][j - 1];
      }
    }
  }

  lemma {:induction false} SortedTextsElements(s: set<string>)
    ensures multiset(SortedTexts(s)) == multiset(s)
    decreases |s|
  {
    if s != {} {
      var m := SortedTexts(s)[0];
      SortedTextsElements(s - {m});
      assert SortedTexts(s) == [m] + SortedTexts(s - {m});
      assert multiset(s) == multiset{m} + multiset(s - {m});
    }
  }

  lemma SortIsSortedTexts(items: seq<string>, s: set<string>)
    requires multiset(items) == multiset(s)
    ensures Sort(items, TextLeq) == SortedTexts(s)
  {
    TextLeqIsTotalOrder();
    SortedTextsElements(s);
    SortedTextsOrdered(s);
    SortOrdered(items, TextLeq);
    OrderedUnique(Sort(items, TextLeq), SortedTexts(s), TextLeq);
  }

  // ---- One row per endpoint ----

  /** Assignment in an insertion-ordered dictionary: a known key keeps its place. */
  function Place(norm: string -> string, rows: seq<ImportRow>, r: ImportRow): seq<ImportRow> {
    if |rows| == 0 then [r]
    else if KeyOf(norm, rows[0]) == KeyOf(norm, r) then [r] + rows[1..]
    else [rows[0]] + Place(norm, rows[1..], r)
  }

  /** The unblocked rows, the last of each endpoint standing where the first stood. */
  function Collapse(norm: string -> string, rows: seq<ImportRow>, blocked: set<SourceKey>): seq<ImportRow> {
    if |rows| == 0 then []
    else
      var n := |rows| - 1;
      var rest := Collapse(norm, rows[..n], blocked);
      if KeyOf(norm, rows[n]) in blocked then rest else Place(norm, rest, rows[n])
  }

  /** What a plan writes: the collapsed rows, source by source. */
  function Importable(norm: string -> string, rows: seq<ImportRow>, blocked: set<SourceKey>,
                      order: seq<string>): seq<ImportRow> {
    if |order| == 0 then []
    else
      var n := |order| - 1;
      Importable(norm, rows, blocked, order[..n]) + Collapse(norm, RowsOf(rows, order[n]), blocked)
  }

  /** What a batch says last about each of its unblocked endpoints. */
  function LastSaid(norm: string -> string, rows: seq<ImportRow>, blocked: set<SourceKey>): map<SourceKey, Content> {
    if |rows| == 0 then map[]
    else
      var n := |rows| - 1;
      var rest := LastSaid(norm, rows[..n], blocked);
      if KeyOf(norm, rows[n]) in blocked then rest else rest[KeyOf(norm, rows[n]) := rows[n].content]
  }

  ghost predicate Lists(norm: string -> string, rows: seq<ImportRow>, k: SourceKey) {
    exists r <- rows :: KeyOf(norm, r) == k
  }

  lemma ListsLast(norm: string -> string, rows: seq<ImportRow>, k: SourceKey)
    requires |rows| != 0
    ensures Lists(norm, rows, k) <==> Lists(norm, rows[..|rows| - 1], k) || KeyOf(norm, rows[|rows| - 1]) == k
  {
    assert rows == rows[..|rows| - 1] + [rows[|rows| - 1]];
  }

  lemma {:induction false} LastSaidKeys(norm: string -> string, rows: seq<ImportRow>, blocked: set<SourceKey>,
                                        k: SourceKey)
    ensures k in LastSaid(norm, rows, blocked) <==> k !in blocked && Lists(norm, rows, k)
  {
    if |rows| != 0 {
      LastSaidKeys(norm, rows[..|rows| - 1], blocked, k);
      ListsLast(norm, rows, k);
    }
  }

  /** Whatever is said about an endpoint after its last row is nothing. */
  lemma {:induction false} LastSaidIsLast(norm: string -> string, rows: seq<ImportRow>, blocked: set<SourceKey>, i: nat)
    requires i < |rows| && KeyOf(norm, rows[i]) !in blocked
    requires forall j :: i < j < |rows| ==> KeyOf(norm, rows[j]) != KeyOf(norm, rows[i])
    ensures KeyOf(norm, rows[i]) in LastSaid(norm, rows, blocked)
    ensures LastSaid(norm, rows, blocked)[KeyOf(norm, rows[i])] == rows[i].content
    decreases |rows|
  {
    var n := |rows| - 1;
    if i < n {
      assert rows[..n][i] == rows[i] && KeyOf(norm, rows[n]) != KeyOf(norm, rows[i]);
      LastSaidIsLast(norm, rows[..n], blocked, i);
    }
  }

  ghost predicate DistinctKeys(norm: string -> string, rows: seq<ImportRow>) {
    forall i, j :: 0 <= i < j < |rows| ==> KeyOf(norm, rows[i]) != KeyOf(norm, rows[j])
  }

  /** The rows hold exactly these contents, one row for each key. */
  ghost predicate Represents(norm: string -> string, rows: seq<ImportRow>, m: map<SourceKey, Content>) {
    && DistinctKeys(norm, rows)
    && (forall r <- rows :: KeyOf(norm, r) in m && m[KeyOf(norm, r)] == r.content)
    && (forall k :: k in m ==> exists r <- rows :: KeyOf(norm, r) == k)
  }

  lemma {:induction false} PlaceNew(norm: string -> string, rows: seq<ImportRow>, r: ImportRow)
    requires forall x <- rows :: KeyOf(norm, x) != KeyOf(norm, r)
    ensures Place(norm, rows, r) == rows + [r]
  {
    if |rows| != 0 {
      PlaceNew(norm, rows[1..], r);
      assert rows[0] in rows && rows == [rows[0]] + rows[1..];
    }
  }

  lemma {:induction false} PlaceKnown(norm: string -> string, rows: seq<ImportRow>, r: ImportRow, i: nat)
    requires i < |rows| && DistinctKeys(norm, rows) && KeyOf(norm, rows[i]) == KeyOf(norm, r)
    ensures Place(norm, rows, r) == rows[i := r]
  {
    if i > 0 {
      assert KeyOf(norm, rows[0]) != KeyOf(norm, rows[i]);
      PlaceKnown(norm, rows[1..], r, i - 1);
      assert rows[i := r] == [rows[0]] + rows[1..][i - 1 := r];
    }
  }

  lemma ReplaceRepresents(norm: string -> string, rows: seq<ImportRow>, i: nat, r: ImportRow,
                          m: map<SourceKey, Content>)
    requires Represents(norm, rows, m) && i < |rows| && KeyOf(norm, rows[i]) == KeyOf(norm, r)
    ensures Represents(norm, rows[i := r], m[KeyOf(norm, r) := r.content])
  {
    var k, placed := KeyOf(norm, r), rows[i := r];
    assert rows[i] in rows && k in m;
    forall j | 0 <= j < |placed| && j != i ensures placed[j] in rows && KeyOf(norm, placed[j]) != k {
      assert j < i ==> KeyOf(norm, rows[j]) != KeyOf(norm, rows[i]);
    }
    forall other | other in m ensures exists x <- placed :: KeyOf(norm, x) == other {
      var j :| 0 <= j < |rows| && KeyOf(norm, rows[j]) == other;
      assert placed[j] in placed && KeyOf(norm, placed[j]) == other;
    }
  }

  lemma AppendRepresents(norm: string -> string, rows: seq<ImportRow>, r: ImportRow, m: map<SourceKey, Content>)
    requires Represents(norm, rows, m) && forall x <- rows :: KeyOf(norm, x) != KeyOf(norm, r)
    ensures Represents(norm, rows + [r], m[KeyOf(norm, r) := r.content])
  {
    assert [r][0] in [r] && KeyOf(norm, r) !in m;
    RepresentsJoin(norm, rows, m, [r], map[KeyOf(norm, r) := r.content]);
    assert m[KeyOf(norm, r) := r.content] == m + map[KeyOf(norm, r) := r.content];
  }

  lemma PlaceRepresents(norm: string -> string, rows: seq<ImportRow>, r: ImportRow, m: map<SourceKey, Content>)
    requires Represents(norm, rows, m)
    ensures Represents(norm, Place(norm, rows, r), m[KeyOf(norm, r) := r.content])
  {
    if i :| 0 <= i < |rows| && KeyOf(norm, rows[i]) == KeyOf(norm, r) {
      PlaceKnown(norm, rows, r, i);
      ReplaceRepresents(norm, rows, i, r, m);
    } else {
      PlaceNew(norm, rows, r);
      AppendRepresents(norm, rows, r, m);
    }
  }

  /** Collapsing keeps, for each unblocked endpoint, what was said last. */
  lemma {:induction false} CollapseRepresents(norm: string -> string, rows: seq<ImportRow>, blocked: set<SourceKey>)
    ensures Represents(norm, Collapse(norm, rows, blocked), LastSaid(norm, rows, blocked))
    ensures forall r <- Collapse(norm, rows, blocked) :: r in rows && KeyOf(norm, r) !in blocked
  {
    if |rows| != 0 {
      var n := |rows| - 1;
      var rest := Collapse(norm, rows[..n], blocked);
      CollapseRepresents(norm, rows[..n], blocked);
      PlaceRepresents(norm, rest, rows[n], LastSaid(norm, rows[..n], blocked));
      PlaceMembers(norm, rest, rows[n]);
    }
  }

  lemma {:induction false} PlaceMembers(norm: string -> string, rows: seq<ImportRow>, r: ImportRow)
    ensures forall x <- Place(norm, rows, r) :: x in rows || x == r
  {
    if |rows| != 0 {
      PlaceMembers(norm, rows[1..], r);
    }
  }

  lemma RepresentsJoin(norm: string -> string, a: seq<ImportRow>, m: map<SourceKey, Content>, b: seq<ImportRow>,
                       n: map<SourceKey, Content>)
    requires Represents(norm, a, m) && Represents(norm, b, n) && m.Keys !! n.Keys
    ensures Represents(norm, a + b, m + n)
  {
    forall i, j | 0 <= i < j < |a + b| ensures KeyOf(norm, (a + b)[i]) != KeyOf(norm, (a + b)[j]) {
      assert i < |a| <= j ==> a[i] in a && b[j - |a|] in b;
    }
    forall k | k in m + n ensures exists r <- a + b :: KeyOf(norm, r) == k {
      assert k in m ==> exists r <- a :: r in a + b && KeyOf(norm, r) == k;
      assert k in n ==> exists r <- b :: r in a + b && KeyOf(norm, r) == k;
    }
  }

  function Of(m: map<SourceKey, Content>, sources: set<string>): map<SourceKey, Content> {
    map k | k in m && k.0 in sources :: m[k]
  }

  lemma LastSaidMore(norm: string -> string, rows: seq<ImportRow>, r: ImportRow, blocked: set<SourceKey>)
    ensures LastSaid(norm, rows + [r], blocked) ==
            if KeyOf(norm, r) in blocked then LastSaid(norm, rows, blocked)
            else LastSaid(norm, rows, blocked)[KeyOf(norm, r) := r.content]
  {
    assert (rows + [r])[..|rows|] == rows;
  }

  lemma OfMore(m: map<SourceKey, Content>, k: SourceKey, c: Content, source: string)
    ensures Of(m[k := c], {source}) == if k.0 == source then Of(m, {source})[k := c] else Of(m, {source})
  { }

  lemma {:induction false} LastSaidOfSource(
    norm: string -> string, rows: seq<ImportRow>, blocked: set<SourceKey>, source: string)
    ensures LastSaid(norm, RowsOf(rows, source), blocked) == Of(LastSaid(norm, rows, blocked), {source})
  {
    if |rows| != 0 {
      var n := |rows| - 1;
      LastSaidOfSource(norm, rows[..n], blocked, source);
      LastSaidMore(norm, RowsOf(rows[..n], source), rows[n], blocked);
      OfMore(LastSaid(norm, rows[..n], blocked), KeyOf(norm, rows[n]), rows[n].content, source);
    }
  }

  lemma OfJoins(m: map<SourceKey, Content>, a: set<string>, b: set<string>)
    ensures Of(m, a) + Of(m, b) == Of(m, a + b)
    ensures a !! b ==> Of(m, a).Keys !! Of(m, b).Keys
  { }

  /** The plan's writes are exactly what the batch says last, for the sources in the plan. */
  lemma {:induction false} ImportableRepresents(norm: string -> string, rows: seq<ImportRow>, blocked: set<SourceKey>,
                                                order: seq<string>)
    requires forall i, j :: 0 <= i < j < |order| ==> order[i] != order[j]
    ensures Represents(norm, Importable(norm, rows, blocked, order),
                       Of(LastSaid(norm, rows, blocked), SetOf(order)))
  {
    if |order| != 0 {
      var n := |order| - 1;
      var said := LastSaid(norm, rows, blocked);
      var before, own := SetOf(order[..n]), {order[n]};
      ImportableRepresents(norm, rows, blocked, order[..n]);
      CollapseRepresents(norm, RowsOf(rows, order[n]), blocked);
      LastSaidOfSource(norm, rows, blocked, order[n]);
      assert SetOf(order) == before + own by { assert order == order[..n] + [order[n]]; }
      OfJoins(said, before, own);
      RepresentsJoin(norm, Importable(norm, rows, blocked, order[..n]), Of(said, before),
                     Collapse(norm, RowsOf(rows, order[n]), blocked), Of(said, own));
    }
  }

  lemma {:induction false} ImportableMembers(norm: string -> string, rows: seq<ImportRow>, blocked: set<SourceKey>,
                                             order: seq<string>)
    ensures forall r <- Importable(norm, rows, blocked, order) ::
              r in rows && KeyOf(norm, r) !in blocked && r.source in order
  {
    if |order| != 0 {
      var n := |order| - 1;
      ImportableMembers(norm, rows, blocked, order[..n]);
      CollapseRepresents(norm, RowsOf(rows, order[n]), blocked);
    }
  }

  // ---- Planning the same batch again ----

  /** Equal but for the id and the time of planning. */
  ghost predicate SameRows(a: seq<ImportRow>, b: seq<ImportRow>) {
    |a| == |b| && forall i :: 0 <= i < |a| ==> a[i].source == b[i].source && a[i].content == b[i].content
  }

  lemma {:induction false} ReplannedRows(records: seq<Record>, source: Option<string>, ids: seq<Id>, now: Time,
                                         ids': seq<Id>, now': Time)
    requires |ids| == |records| == |ids'|
    ensures SameRows(ValidRows(records, source, ids, now), ValidRows(records, source, ids', now'))
  {
    if |records| != 0 {
      var n := |records| - 1;
      ReplannedRows(records[..n], source, ids[..n], now, ids'[..n], now');
      var rest, rest' := ValidRows(records[..n], source, ids[..n], now),
                         ValidRows(records[..n], source, ids'[..n], now');
      ReplannedRow(records[n], source, ids[n], now, ids'[n], now');
      var row, row' := BuildRow(records[n], source, ids[n], now), BuildRow(records[n], source, ids'[n], now');
      if row.Ok? { SameRowsMore(rest, row.value, rest', row'.value); }
    }
  }

  lemma ReplannedRow(rec: Record, source: Option<string>, id: Id, now: Time, id': Id, now': Time)
    ensures var row, row' := BuildRow(rec, source, id, now), BuildRow(rec, source, id', now');
            && row.Ok? == row'.Ok?
            && (row.Ok? ==> row.value.source == row'.value.source && row.value.content == row'.value.content)
  { }

  lemma SameRowsMore(a: seq<ImportRow>, r: ImportRow, b: seq<ImportRow>, r': ImportRow)
    requires SameRows(a, b) && r.source == r'.source && r.content == r'.content
    ensures SameRows(a + [r], b + [r'])
  { }

  lemma SameRowsJoin(a: seq<ImportRow>, a': seq<ImportRow>, b: seq<ImportRow>, b': seq<ImportRow>)
    requires SameRows(a, b) && SameRows(a', b')
    ensures SameRows(a + a', b + b')
  { }

  lemma {:induction false} PickSameRows(a: seq<ImportRow>, b: seq<ImportRow>, source: string)
    requires SameRows(a, b)
    ensures SameRows(RowsOf(a, source), RowsOf(b, source))
  {
    if |a| != 0 {
      PickSameRows(a[..|a| - 1], b[..|b| - 1], source);
    }
  }

  lemma {:induction false} PlaceSameRows(norm: string -> string, a: seq<ImportRow>, r: ImportRow, b: seq<ImportRow>,
                                         r': ImportRow)
    requires SameRows(a, b) && SameRows([r], [r'])
    ensures SameRows(Place(norm, a, r), Place(norm, b, r'))
  {
    assert [r][0] == r && [r'][0] == r';
    if |a| != 0 && KeyOf(norm, a[0]) != KeyOf(norm, r) {
      assert a[0].source == b[0].source && a[0].content == b[0].content;
      PlaceSameRows(norm, a[1..], r, b[1..], r');
    }
  }

  lemma {:induction false} CollapseSameRows(norm: string -> string, a: seq<ImportRow>, b: seq<ImportRow>,
                                            blocked: set<SourceKey>)
    requires SameRows(a, b)
    ensures SameRows(Collapse(norm, a, blocked), Collapse(norm, b, blocked))
  {
    if |a| != 0 {
      var n := |a| - 1;
      CollapseSameRows(norm, a[..n], b[..n], blocked);
      PlaceSameRows(norm, Collapse(norm, a[..n], blocked), a[n], Collapse(norm, b[..n], blocked), b[n]);
    }
  }

  lemma {:induction false} ImportableSameRows(norm: string -> string, a: seq<ImportRow>, b: seq<ImportRow>,
                                              blocked: set<SourceKey>, order: seq<string>)
    requires SameRows(a, b)
    ensures SameRows(Importable(norm, a, blocked, order), Importable(norm, b, blocked, order))
  {
    if |order| != 0 {
      var n := |order| - 1;
      ImportableSameRows(norm, a, b, blocked, order[..n]);
      PickSameRows(a, b, order[n]);
      CollapseSameRows(norm, RowsOf(a, order[n]), RowsOf(b, order[n]), blocked);
      SameRowsJoin(Importable(norm, a, blocked, order[..n]), Collapse(norm, RowsOf(a, order[n]), blocked),
                   Importable(norm, b, blocked, order[..n]), Collapse(norm, RowsOf(b, order[n]), blocked));
    }
  }

  lemma SameRowsSeeTheSame(norm: string -> string, a: seq<ImportRow>, b: seq<ImportRow>, source: string)
    requires SameRows(a, b)
    ensures Seen(norm, a, source) == Seen(norm, b, source)
    ensures SourcesOf(a) == SourcesOf(b)
  {
    forall i | 0 <= i < |a|
      ensures a[i].source in SourcesOf(b) && b[i].source in SourcesOf(a)
      ensures a[i].source == source ==>
                norm(a[i].content.endpointUrl) in Seen(norm, b, source)
                && norm(b[i].content.endpointUrl) in Seen(norm, a, source)
    {
      assert a[i] in a && b[i] in b;
    }
  }

  /** What is left of a batch once its blocked rows are dropped says the same last. */
  lemma {:induction false} LastSaidOfUnblocked(norm: string -> string, rows: seq<ImportRow>, blocked: set<SourceKey>)
    ensures LastSaid(norm, Unblocked(norm, rows, blocked), {}) == LastSaid(norm, rows, blocked)
  {
    if |rows| != 0 {
      var n := |rows| - 1;
      LastSaidOfUnblocked(norm, rows[..n], blocked);
      LastSaidMore(norm, Unblocked(norm, rows[..n], blocked), rows[n], {});
    }
  }

  lemma RepresentsLastSaid(norm: string -> string, rows: seq<ImportRow>, m: map<SourceKey, Content>)
    requires Represents(norm, rows, m)
    ensures LastSaid(norm, rows, {}) == m
  {
    forall k ensures k in LastSaid(norm, rows, {}) <==> k in m { LastSaidKeys(norm, rows, {}, k); }
    forall k | k in m ensures LastSaid(norm, rows, {})[k] == m[k] {
      var i :| 0 <= i < |rows| && KeyOf(norm, rows[i]) == k;
      LastSaidIsLast(norm, rows, {}, i);
    }
  }
}
