/** URL query text: percent-encoding, form encoding, and reading either back. */
module Queries {
  import opened Base64
  import opened Texts
  import Utf8
  import FlatJson

  type Pair = (string, string)

  // ---- Percent-encoding ----

  /** Letters, digits and `_.-~`, which are never escaped. */
  predicate IsSafe(b: byte) {
    'A' as int <= b <= 'Z' as int || 'a' as int <= b <= 'z' as int || '0' as int <= b <= '9' as int
    || b == '_' as int || b == '.' as int || b == '-' as int || b == '~' as int
  }

  function UpperHex(n: int): char
    requires 0 <= n < 16
  {
    if n < 10 then ('0' as int + n) as char else ('A' as int + n - 10) as char
  }

  function QuoteByte(b: byte): string {
    if IsSafe(b) || b == ' ' as int then [b as char] else ['%', UpperHex(b / 16), UpperHex(b % 16)]
  }

  /** `quote` with the space left alone. */
  function Quote(bytes: seq<byte>): string {
    if |bytes| == 0 then "" else QuoteByte(bytes[0]) + Quote(bytes[1..])
  }

  function Replace(s: string, from: char, to: char): (r: string)
    ensures |r| == |s| && forall i :: 0 <= i < |s| ==> r[i] == if s[i] == from then to else s[i]
  {
    seq(|s|, i requires 0 <= i < |s| => if s[i] == from then to else s[i])
  }

  function QuotePlus(s: string): string {
    Replace(Quote(Utf8.Encode(s)), ' ', '+')
  }

  predicate IsAscii(s: string) {
    forall i :: 0 <= i < |s| ==> s[i] < '\U{80}'
  }

  /** The bytes an ASCII text stands for; a percent sign that escapes nothing stands for itself. */
  function UnquoteBytes(s: string): seq<byte>
    requires IsAscii(s)
  {
    if |s| == 0 then []
    else if s[0] == '%' && |s| >= 3 && FlatJson.HexValue(s[1]) >= 0 && FlatJson.HexValue(s[2]) >= 0 then
      var b: byte := FlatJson.HexValue(s[1]) * 16 + FlatJson.HexValue(s[2]);
      [b] + UnquoteBytes(s[3..])
    else
      var b: byte := s[0] as int;
      [b] + UnquoteBytes(s[1..])
  }

  /** How much of a text, from its start, is ASCII. */
  function AsciiLength(s: string): (n: nat)
    ensures n <= |s| && IsAscii(s[..n])
    ensures n < |s| ==> s[n] >= '\U{80}'
  {
    if |s| == 0 || s[0] >= '\U{80}' then 0
    else
      var n := 1 + AsciiLength(s[1..]);
      assert s[..n] == [s[0]] + s[1..][..n - 1];
      n
  }

  /** Each ASCII stretch is unescaped and decoded on its own; other characters stay. */
  function UnquoteRuns(s: string): string
    decreases |s|
  {
    if |s| == 0 then ""
    else if s[0] >= '\U{80}' then [s[0]] + UnquoteRuns(s[1..])
    else
      var n := AsciiLength(s);
      Utf8.Decode(UnquoteBytes(s[..n])) + UnquoteRuns(s[n..])
  }

  function Unquote(s: string): string {
    if '%' !in s then s else UnquoteRuns(s)
  }

  function UnquotePlus(s: string): string {
    Unquote(Replace(s, '+', ' '))
  }

  // ---- Forms ----

  function EncodePair(p: Pair): string {
    QuotePlus(p.0) + "=" + QuotePlus(p.1)
  }

  function UrlEncode(pairs: seq<Pair>): string {
    if |pairs| == 0 then ""
    else
      var first := EncodePair(pairs[0]);
      if |pairs| == 1 then first else first + "&" + UrlEncode(pairs[1..])
  }

  function Split(s: string, c: char): seq<string>
    decreases |s|
  {
    var i := Find(s, c);
    if i == |s| then [s] else [s[..i]] + Split(s[i + 1..], c)
  }

  /** A name without an equals sign has an empty value. */
  function ReadPair(s: string): Pair {
    var i := Find(s, '=');
    (UnquotePlus(s[..i]), if i == |s| then "" else UnquotePlus(s[i + 1..]))
  }

  function ReadPairs(items: seq<string>): seq<Pair> {
    if |items| == 0 then []
    else (if items[0] == "" then [] else [ReadPair(items[0])]) + ReadPairs(items[1..])
  }

  function ParseQuery(query: string): seq<Pair> {
    if query == "" then [] else ReadPairs(Split(query, '&'))
  }

  // ---- Reading back what was written ----

  /** What encoding can produce: no separator, no space, nothing a URL would cut at. */
  predicate IsQuoted(c: char) {
    (c < '\U{80}' && IsSafe(c as int)) || c == '%' || c == '+'
  }

  lemma UpperHexReads(n: int)
    requires 0 <= n < 16
    ensures FlatJson.HexValue(UpperHex(n)) == n && IsQuoted(UpperHex(n))
  { }

  lemma QuoteByteChars(b: byte)
    ensures forall c <- QuoteByte(b) :: c < '\U{80}' && (c == ' ' || (IsQuoted(c) && c != '+'))
  {
    UpperHexReads(b / 16);
    UpperHexReads(b % 16);
  }

  lemma QuoteByteReads(b: byte, rest: string)
    requires IsAscii(rest)
    ensures IsAscii(QuoteByte(b) + rest) && UnquoteBytes(QuoteByte(b) + rest) == [b] + UnquoteBytes(rest)
  {
    QuoteByteChars(b);
    var q := QuoteByte(b);
    assert (q + rest)[|q|..] == rest;
    UpperHexReads(b / 16);
    UpperHexReads(b % 16);
  }

  lemma {:induction false} QuoteChars(bytes: seq<byte>)
    ensures forall c <- Quote(bytes) :: c < '\U{80}' && (c == ' ' || (IsQuoted(c) && c != '+'))
  {
    if |bytes| != 0 {
      QuoteByteChars(bytes[0]);
      QuoteChars(bytes[1..]);
    }
  }

  lemma {:induction false} QuoteReads(bytes: seq<byte>)
    ensures IsAscii(Quote(bytes))
    ensures UnquoteBytes(Quote(bytes)) == bytes
  {
    if |bytes| != 0 {
      QuoteReads(bytes[1..]);
      QuoteByteReads(bytes[0], Quote(bytes[1..]));
    }
  }

  lemma {:induction false} QuoteWithoutEscapes(s: string)
    requires '%' !in Quote(Utf8.Encode(s))
    ensures Quote(Utf8.Encode(s)) == s
  {
    if |s| != 0 {
      var first, rest := Utf8.EncodeChar(s[0]), Utf8.Encode(s[1..]);
      var q := Quote(first + rest);
      assert first[0] == (first + rest)[0];
      assert q == QuoteByte(first[0]) + Quote((first + rest)[1..]);
      assert q[0] == QuoteByte(first[0])[0] && q[0] in q;
      assert IsSafe(first[0]) || first[0] == ' ' as int;
      assert |first| == 1 && (first + rest)[1..] == rest;
      assert forall c <- Quote(rest) :: c in q;
      QuoteWithoutEscapes(s[1..]);
    }
  }

  lemma PlusUndone(q: string)
    requires '+' !in q
    ensures Replace(Replace(q, ' ', '+'), '+', ' ') == q
  {
    forall i | 0 <= i < |q| ensures Replace(Replace(q, ' ', '+'), '+', ' ')[i] == q[i] {
      assert q[i] in q;
    }
  }

  lemma PlusChars(q: string)
    requires forall c <- q :: c == ' ' || IsQuoted(c)
    ensures forall c <- Replace(q, ' ', '+') :: IsQuoted(c)
  {
    var r := Replace(q, ' ', '+');
    forall i | 0 <= i < |r| ensures IsQuoted(r[i]) {
      assert q[i] in q;
    }
  }

  /** An ASCII text is one stretch. */
  lemma AsciiUnquotes(q: string)
    requires IsAscii(q)
    ensures UnquoteRuns(q) == Utf8.Decode(UnquoteBytes(q))
  {
    if q != "" {
      assert AsciiLength(q) == |q|;
      assert q[..|q|] == q && UnquoteRuns(q[|q|..]) == "";
    } else {
      assert Utf8.Decode(UnquoteBytes(q)) == "";
    }
  }

  lemma UnquoteQuoted(s: string)
    ensures UnquotePlus(QuotePlus(s)) == s
    ensures forall c <- QuotePlus(s) :: IsQuoted(c)
  {
    var bytes := Utf8.Encode(s);
    var q := Quote(bytes);
    QuoteChars(bytes);
    PlusUndone(q);
    PlusChars(q);
    if '%' !in q {
      QuoteWithoutEscapes(s);
    } else {
      QuoteReads(bytes);
      AsciiUnquotes(q);
      Utf8.DecodeEncode(s);
    }
  }

  lemma PairReads(p: Pair)
    ensures var s := EncodePair(p);
            s != "" && '&' !in s && ReadPair(s) == p && forall c <- s :: IsQuoted(c) || c == '='
  {
    UnquoteQuoted(p.0);
    UnquoteQuoted(p.1);
    var s := EncodePair(p);
    FindIn(QuotePlus(p.0), '=', QuotePlus(p.1));
    assert s[..|QuotePlus(p.0)|] == QuotePlus(p.0) && s[|QuotePlus(p.0)| + 1..] == QuotePlus(p.1);
  }

  lemma SplitMore(first: string, rest: string)
    requires '&' !in first
    ensures Split(first + "&" + rest, '&') == [first] + Split(rest, '&')
  {
    FindIn(first, '&', rest);
    var s := first + "&" + rest;
    assert s[..|first|] == first && s[|first| + 1..] == rest;
  }

  lemma SplitNone(s: string)
    requires '&' !in s
    ensures Split(s, '&') == [s]
  {
    FindNone(s, '&');
  }

  lemma ReadMore(first: string, items: seq<string>)
    requires first != ""
    ensures ReadPairs([first] + items) == [ReadPair(first)] + ReadPairs(items)
  {
    assert ([first] + items)[1..] == items;
  }

  lemma ReadPairsJoin(a: seq<string>, b: seq<string>)
    ensures ReadPairs(a + b) == ReadPairs(a) + ReadPairs(b)
  {
    if a == [] {
      assert [] + b == b;
    } else {
      assert (a + b)[1..] == a[1..] + b;
      ReadPairsJoin(a[1..], b);
    }
  }

  /** A text with an ampersand, cut at the first. */
  lemma {:induction false} AtAmpersand(a: string) returns (first: string, rest: string)
    requires '&' in a
    ensures a == first + "&" + rest && '&' !in first
  {
    if a[0] == '&' {
      first, rest := "", a[1..];
    } else {
      assert '&' in a[1..];
      var more;
      more, rest := AtAmpersand(a[1..]);
      first := [a[0]] + more;
      assert a == [a[0]] + a[1..];
    }
  }

  lemma Regroup(first: string, rest: string, b: string)
    ensures (first + "&" + rest) + "&" + b == first + "&" + (rest + "&" + b)
  { }

  lemma AddFirst(first: string, x: seq<string>, y: seq<string>)
    ensures [first] + (x + y) == ([first] + x) + y
  { }

  lemma SplitJoinMore(first: string, rest: string, b: string)
    requires '&' !in first && Split(rest + "&" + b, '&') == Split(rest, '&') + Split(b, '&')
    ensures Split((first + "&" + rest) + "&" + b, '&') == Split(first + "&" + rest, '&') + Split(b, '&')
  {
    Regroup(first, rest, b);
    SplitMore(first, rest + "&" + b);
    SplitMore(first, rest);
    AddFirst(first, Split(rest, '&'), Split(b, '&'));
  }

  lemma {:induction false} SplitJoin(a: string, b: string)
    ensures Split(a + "&" + b, '&') == Split(a, '&') + Split(b, '&')
    decreases |a|
  {
    if '&' in a {
      var first, rest := AtAmpersand(a);
      SplitJoin(rest, b);
      SplitJoinMore(first, rest, b);
    } else {
      SplitMore(a, b);
      SplitNone(a);
    }
  }

  lemma ParsesItems(query: string)
    ensures ParseQuery(query) == ReadPairs(Split(query, '&'))
  {
    if query == "" {
      assert Split("", '&') == [""];
      assert ReadPairs([""]) == [] + ReadPairs([]);
    }
  }

  /** A query is the pairs of its parts between ampersands, in order. */
  lemma ParseQueryJoins(a: string, b: string)
    ensures ParseQuery(a + "&" + b) == ParseQuery(a) + ParseQuery(b)
  {
    SplitJoin(a, b);
    ReadPairsJoin(Split(a, '&'), Split(b, '&'));
    ParsesItems(a);
    ParsesItems(b);
    ParsesItems(a + "&" + b);
  }

  /** Of one part: nothing if it is empty, else a pair, cut at the first equals sign; without one the value is empty. */
  lemma PartReads(name: string, value: string)
    requires '&' !in name && '&' !in value && '=' !in name
    ensures ParseQuery("") == []
    ensures name != "" ==> ParseQuery(name) == [(UnquotePlus(name), "")]
    ensures ParseQuery(name + "=" + value) == [(UnquotePlus(name), UnquotePlus(value))]
  {
    if name != "" {
      FindNone(name, '&');
      FindNone(name, '=');
      assert name[..|name|] == name;
      OneItem(name);
    }
    var s := name + "=" + value;
    assert '&' !in s;
    FindNone(s, '&');
    FindIn(name, '=', value);
    assert s[..|s|] == s && s[..|name|] == name && s[|name| + 1..] == value;
    OneItem(s);
  }

  lemma OneItem(s: string)
    requires s != "" && Find(s, '&') == |s|
    ensures ParseQuery(s) == [ReadPair(s)]
  {
    assert s[..|s|] == s && Split(s, '&') == [s];
    ReadMore(s, []);
    assert [s] + [] == [s];
  }

  lemma OnePairReads(p: Pair)
    ensures ParseQuery(EncodePair(p)) == [p]
  {
    PairReads(p);
    var s := EncodePair(p);
    FindNone(s, '&');
    ReadMore(s, []);
    assert [s] + [] == [s];
  }

  lemma MorePairsRead(p: Pair, rest: string)
    requires rest != ""
    ensures ParseQuery(EncodePair(p) + "&" + rest) == [p] + ParseQuery(rest)
  {
    PairReads(p);
    SplitMore(EncodePair(p), rest);
    ReadMore(EncodePair(p), Split(rest, '&'));
  }

  lemma EncodeMore(p: Pair, pairs: seq<Pair>)
    ensures UrlEncode([p] + pairs) == if pairs == [] then EncodePair(p) else EncodePair(p) + "&" + UrlEncode(pairs)
  {
    assert ([p] + pairs)[1..] == pairs;
  }

  lemma {:induction false} EncodedChars(pairs: seq<Pair>)
    ensures forall c <- UrlEncode(pairs) :: IsQuoted(c) || c == '=' || c == '&'
    ensures UrlEncode(pairs) == "" <==> pairs == []
  {
    if |pairs| != 0 {
      PairReads(pairs[0]);
      EncodedChars(pairs[1..]);
      EncodeMore(pairs[0], pairs[1..]);
      assert pairs == [pairs[0]] + pairs[1..];
    }
  }

  /** Form encoding loses nothing, and writes only characters a URL keeps in its query. */
  lemma {:induction false} ParseEncoded(pairs: seq<Pair>)
    ensures ParseQuery(UrlEncode(pairs)) == pairs
    ensures forall c <- UrlEncode(pairs) :: IsQuoted(c) || c == '=' || c == '&'
    ensures UrlEncode(pairs) == "" <==> pairs == []
  {
    EncodedChars(pairs);
    if |pairs| != 0 {
      ParseEncoded(pairs[1..]);
      EncodeMore(pairs[0], pairs[1..]);
      assert pairs == [pairs[0]] + pairs[1..];
      if |pairs| == 1 {
        OnePairReads(pairs[0]);
      } else {
        MorePairsRead(pairs[0], UrlEncode(pairs[1..]));
      }
    }
  }
}
