/** Searching and trimming texts, as Python's string methods do. */
module Texts {
  import opened Wrappers

  /** The characters `str.strip` removes. */
  predicate IsSpace(c: char) {
    || '\t' <= c <= '\r' || '\U{1c}' <= c <= ' ' || c == '\U{85}' || c == '\U{a0}' || c == '\U{1680}'
    || '\U{2000}' <= c <= '\U{200a}' || c == '\U{2028}' || c == '\U{2029}' || c == '\U{202f}' || c == '\U{205f}'
    || c == '\U{3000}'
  }

  function LStrip(s: string, drop: char -> bool): (r: string)
    ensures |r| <= |s| && r == s[|s| - |r|..]
    ensures r != "" ==> !drop(r[0])
  {
    if |s| != 0 && drop(s[0]) then LStrip(s[1..], drop) else s
  }

  function RStrip(s: string, drop: char -> bool): (r: string)
    ensures |r| <= |s| && r == s[..|r|]
    ensures r != "" ==> !drop(r[|r| - 1])
    ensures |r| == |s| <==> s == "" || !drop(s[|s| - 1])
  {
    if |s| != 0 && drop(s[|s| - 1]) then RStrip(s[..|s| - 1], drop) else s
  }

  function Strip(s: string): string {
    RStrip(LStrip(s, IsSpace), IsSpace)
  }

  /** Where `c` first occurs, or the length if it does not. */
  function Find(s: string, c: char): (i: nat)
    ensures i <= |s| && c !in s[..i]
    ensures i < |s| ==> s[i] == c
  {
    if |s| == 0 || s[0] == c then 0
    else
      var i := 1 + Find(s[1..], c);
      assert s[..i] == [s[0]] + s[1..][..i - 1];
      i
  }

  /** What comes after `c` where it last occurs, or the whole text. */
  function AfterLast(s: string, c: char): (r: string)
    ensures c !in r && |r| <= |s|
  {
    if c !in s then s else AfterLast(s[Find(s, c) + 1..], c)
  }

  lemma {:induction false} AfterLastIsEnd(s: string, c: char)
    ensures AfterLast(s, c) == s[|s| - |AfterLast(s, c)|..]
  {
    if c in s {
      var rest := s[Find(s, c) + 1..];
      AfterLastIsEnd(rest, c);
      assert rest[|rest| - |AfterLast(rest, c)|..] == s[|s| - |AfterLast(rest, c)|..];
    }
  }

  lemma {:induction false} FindIn(a: string, c: char, b: string)
    requires c !in a
    ensures Find(a + [c] + b, c) == |a|
  {
    var s := a + [c] + b;
    if |a| != 0 {
      assert a[0] in a && s[1..] == a[1..] + [c] + b;
      FindIn(a[1..], c, b);
    }
  }

  lemma {:induction false} FindNone(s: string, c: char)
    requires c !in s
    ensures Find(s, c) == |s|
  {
    if |s| != 0 {
      assert s[0] in s;
      FindNone(s[1..], c);
    }
  }

  function Remove(s: string, drop: char -> bool): (r: string)
    ensures forall c <- r :: !drop(c) && c in s
    ensures |r| <= |s|
  {
    if |s| == 0 then ""
    else (if drop(s[0]) then "" else [s[0]]) + Remove(s[1..], drop)
  }

  lemma {:induction false} RemoveNone(s: string, drop: char -> bool)
    requires forall c <- s :: !drop(c)
    ensures Remove(s, drop) == s
  {
    if |s| != 0 { RemoveNone(s[1..], drop); }
  }

  // ---- Numbers ----

  predicate IsDigit(c: char) {
    '0' <= c <= '9'
  }

  predicate IsDigits(s: string) {
    forall i :: 0 <= i < |s| ==> IsDigit(s[i])
  }

  function Number(s: string): nat
    requires IsDigits(s)
  {
    if |s| == 0 then 0
    else
      assert IsDigit(s[|s| - 1]);
      Number(s[..|s| - 1]) * 10 + (s[|s| - 1] as int - '0' as int)
  }

  function Decimal(n: nat): (s: string)
    ensures |s| > 0 && IsDigits(s)
  {
    var last := ('0' as int + n % 10) as char;
    if n < 10 then [last] else Decimal(n / 10) + [last]
  }

  lemma {:induction false} NumberOfDecimal(n: nat)
    ensures Number(Decimal(n)) == n
  {
    if n >= 10 { NumberOfDecimal(n / 10); }
  }

  function IntText(n: int): string {
    if n < 0 then "-" + Decimal(-n) else Decimal(n)
  }

  function ReadInt(s: string): Option<int> {
    if |s| > 1 && s[0] == '-' && IsDigits(s[1..]) then Some(0 - Number(s[1..]))
    else if |s| > 0 && IsDigits(s) then Some(Number(s))
    else None
  }

  /** An integer's text reads back, and holds only digits and a sign. */
  lemma IntReads(n: int)
    ensures ReadInt(IntText(n)) == Some(n)
    ensures IntText(n) != "" && forall i :: 0 <= i < |IntText(n)| ==> IsDigit(IntText(n)[i]) || IntText(n)[i] == '-'
  {
    NumberOfDecimal(if n < 0 then -n else n);
    if n < 0 {
      assert IntText(n)[1..] == Decimal(-n);
    } else {
      assert IsDigit(Decimal(n)[0]);
    }
  }

  function PowerOfTen(k: nat): nat {
    if k == 0 then 1 else 10 * PowerOfTen(k - 1)
  }

  lemma {:induction false} DecimalIsShort(n: nat, k: nat)
    requires k >= 1 && n < PowerOfTen(k)
    ensures |Decimal(n)| <= k
  {
    if n >= 10 { DecimalIsShort(n / 10, k - 1); }
  }
}
