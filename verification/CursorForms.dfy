/**
 Text forms that meet all a cursor codec needs: every instant of the years 1 to 9999 to the
 microsecond and every double-precision number, each in a few ASCII characters.
 */
module CursorForms {
  import opened Wrappers
  import opened Listings
  import opened Texts
  import opened Search
  import FlatJson
  import Cursors

  const FIRST_TIME: Time := -62_135_596_800_000_000
  const LAST_TIME: Time := 253_402_300_799_999_999

  predicate IsTime(t: Time) {
    FIRST_TIME <= t <= LAST_TIME
  }

  function PowerOfTwo(k: nat): (p: real)
    ensures p > 0.0
  {
    if k == 0 then 1.0 else 2.0 * PowerOfTwo(k - 1)
  }

  const MAX_MANTISSA := 9_007_199_254_740_992
  const MIN_EXPONENT := -1074
  const MAX_EXPONENT := 971

  function Scaled(m: int, e: int): real {
    if e >= 0 then m as real * PowerOfTwo(e) else m as real / PowerOfTwo(-e)
  }

  ghost predicate DenotesDouble(v: real, m: int, e: int) {
    -MAX_MANTISSA <= m <= MAX_MANTISSA && MIN_EXPONENT <= e <= MAX_EXPONENT && v == Scaled(m, e)
  }

  /** A finite number of the IEEE 754 binary64 format. */
  ghost predicate IsDouble(v: real) {
    exists m, e :: DenotesDouble(v, m, e)
  }

  /** Mantissa and exponent, one pair for each number. */
  ghost function ShowDouble(v: real): string {
    if IsDouble(v) then
      var m, e :| DenotesDouble(v, m, e);
      IntText(m) + "p" + IntText(e)
    else "0"
  }

  function ReadDouble(s: string): Option<real> {
    var i := Find(s, 'p');
    if i == |s| then None
    else match (ReadInt(s[..i]), ReadInt(s[i + 1..]))
      case (Some(m), Some(e)) => Some(Scaled(m, e))
      case _ => None
  }

  lemma IntIsShort(n: int, k: nat)
    requires k >= 1 && 0 - PowerOfTen(k) < n < PowerOfTen(k)
    ensures |IntText(n)| <= k + 1
  {
    DecimalIsShort(if n < 0 then -n else n, k);
  }

  lemma TenPowers()
    ensures PowerOfTen(4) == 10_000 && PowerOfTen(18) == 1_000_000_000_000_000_000
  {
    assert PowerOfTen(9) == 1_000_000_000;
    assert PowerOfTen(18) == 1_000_000_000_000_000_000;
  }

  predicate IsPlain(c: char) {
    IsDigit(c) || c == '-' || c == 'p'
  }

  lemma PairReads(m: int, e: int)
    ensures ReadDouble(IntText(m) + "p" + IntText(e)) == Some(Scaled(m, e))
  {
    var a, b := IntText(m), IntText(e);
    IntReads(m);
    IntReads(e);
    assert 'p' !in a;
    FindIn(a, 'p', b);
    var s := a + "p" + b;
    assert s[..|a|] == a && s[|a| + 1..] == b;
  }

  lemma PairIsPlain(m: int, e: int)
    ensures var s := IntText(m) + "p" + IntText(e);
            |s| == |IntText(m)| + |IntText(e)| + 1 && forall i :: 0 <= i < |s| ==> IsPlain(s[i])
  {
    IntReads(m);
    IntReads(e);
  }

  lemma PlainIsToken(s: string)
    requires s != "" && forall i :: 0 <= i < |s| ==> IsPlain(s[i])
    ensures FlatJson.PlainToken(s) && FlatJson.Ascii(s)
  { }

  lemma DoubleReads(v: real)
    requires IsDouble(v)
    ensures ReadDouble(ShowDouble(v)) == Some(v) && |ShowDouble(v)| <= 64
    ensures FlatJson.PlainToken(ShowDouble(v)) && FlatJson.Ascii(ShowDouble(v))
  {
    var m, e :| DenotesDouble(v, m, e) && ShowDouble(v) == IntText(m) + "p" + IntText(e);
    PairReads(m, e);
    PairIsPlain(m, e);
    PlainIsToken(ShowDouble(v));
    TenPowers();
    IntIsShort(m, 18);
    IntIsShort(e, 4);
  }

  lemma TimeReads(t: Time)
    requires IsTime(t)
    ensures ReadInt(IntText(t)) == Some(t) && |FlatJson.Escape(IntText(t))| <= 64
  {
    IntReads(t);
    FlatJson.EscapeIsAscii(IntText(t));
    TenPowers();
    IntIsShort(t, 18);
  }

  function ReadTime(s: string): Option<(Time, bool)> {
    match ReadInt(s) case Some(t) => Some((t, true)) case None => None
  }

  ghost function Forms(): Cursors.TextForms {
    Cursors.TextForms(IsTime, v => IsDouble(v), IntText, ReadTime, v => ShowDouble(v), ReadDouble,
                      q => seq(64, _ => '0'))
  }

  /** There are text forms for all calendar times and all doubles, and a codec made of them. */
  lemma SomeCodecIsSound()
    ensures Cursors.Compact(Forms())
    ensures Cursors.Sound(Cursors.CodecOf(Forms()))
  {
    var forms := Forms();
    forall t | forms.isTime(t)
      ensures forms.readTime(forms.showTime(t)) == Some((t, true)) && |FlatJson.Escape(forms.showTime(t))| <= 64
    {
      TimeReads(t);
    }
    forall v | forms.isReal(v)
      ensures forms.readReal(forms.showReal(v)) == Some(v) && |forms.showReal(v)| <= 64
      ensures FlatJson.PlainToken(forms.showReal(v)) && FlatJson.Ascii(forms.showReal(v))
    {
      DoubleReads(v);
    }
    Cursors.CodecIsSound(forms);
  }

  function Still(m: Moment, n: nat): seq<Moment> {
    seq(n, _ => m)
  }

  lemma StillRowListedOnce(codec: Cursors.Codec, engine: Engine, m: Moment, pages: nat, r: Request, id: Id)
    requires Starts(r) && !Cursors.Searching(r.q) && pages > 0
    requires Cursors.Sound(codec) && Carried(codec, engine, m.table, QueryText(r.q), ByActivity)
    requires Finished(ClientWalk(codec, engine, Still(m, pages), r))
    requires id in ViewAt(engine, m, r.filter, QueryText(r.q), ByActivity)
    ensures TimesListed(ClientWalk(codec, engine, Still(m, pages), r), id) == 1
  {
    var view := ViewAt(engine, m, r.filter, QueryText(r.q), ByActivity);
    QuietViews(engine, Still(m, pages), r.filter, QueryText(r.q), ByActivity, m);
    WalkListsSteadyRowOnce(codec, engine, Still(m, pages), r, id, view[id]);
  }

  lemma StillBoardBrowsed(codec: Cursors.Codec, engine: Engine, m: Moment, r: Request)
    requires Starts(r) && !Cursors.Searching(r.q)
    requires Cursors.Sound(codec) && Carried(codec, engine, m.table, QueryText(r.q), ByActivity)
    ensures var walk := ClientWalk(codec, engine, Still(m, |m.table| + 1), r);
            && Finished(walk)
            && forall id :: id in ViewAt(engine, m, r.filter, QueryText(r.q), ByActivity) ==> TimesListed(walk, id) == 1
  {
    var moments := Still(m, |m.table| + 1);
    QuietWalkFinishes(codec, engine, moments, r, m);
    forall id | id in ViewAt(engine, m, r.filter, QueryText(r.q), ByActivity)
      ensures TimesListed(ClientWalk(codec, engine, moments, r), id) == 1
    {
      StillRowListedOnce(codec, engine, m, |moments|, r, id);
    }
  }

  lemma CalendarTimesAreCarried(engine: Engine, t: Table, q: string)
    requires forall id :: id in t ==> Cursors.CursorId(id) && IsTime(LastActivity(t[id]))
    ensures Carried(Cursors.CodecOf(Forms()), engine, t, q, ByActivity)
  { }

  /** With that codec, a client browsing any board with plain ids and calendar times reaches its end. */
  lemma EveryBoardCanBeBrowsed(engine: Engine, m: Moment, r: Request)
    requires Starts(r) && !Cursors.Searching(r.q)
    requires forall id :: id in m.table ==> Cursors.CursorId(id) && IsTime(LastActivity(m.table[id]))
    ensures var walk := ClientWalk(Cursors.CodecOf(Forms()), engine, Still(m, |m.table| + 1), r);
            && Finished(walk)
            && forall id :: id in ViewAt(engine, m, r.filter, QueryText(r.q), ByActivity) ==> TimesListed(walk, id) == 1
  {
    SomeCodecIsSound();
    CalendarTimesAreCarried(engine, m.table, QueryText(r.q));
    StillBoardBrowsed(Cursors.CodecOf(Forms()), engine, m, r);
  }
}
