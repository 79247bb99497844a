/**
 The base64url text form of a cursor (RFC 4648 section 5), written without padding. The decoder is
 the lenient one: it skips characters outside the alphabet, accepts both alphabets, and stops at a
 padding sequence that completes a group.
 */
module Base64 {
  import opened Wrappers

  type byte = x: int | 0 <= x < 256
  type sextet = x: int | 0 <= x < 64

  function Letter(v: sextet): char {
    if v < 26 then ('A' as int + v) as char
    else if v < 52 then ('a' as int + v - 26) as char
    else if v < 62 then ('0' as int + v - 52) as char
    else if v == 62 then '-' else '_'
  }

  function Sextet(c: char): Option<sextet> {
    if 'A' <= c <= 'Z' then Some(c as int - 'A' as int)
    else if 'a' <= c <= 'z' then Some(c as int - 'a' as int + 26)
    else if '0' <= c <= '9' then Some(c as int - '0' as int + 52)
    else if c == '-' || c == '+' then Some(62)
    else if c == '_' || c == '/' then Some(63)
    else None
  }

  lemma SextetOfLetter(v: sextet)
    ensures Sextet(Letter(v)) == Some(v) && Letter(v) != '='
  {
  }

  /** The letters of an encoding, before any padding. */
  function Body(b: seq<byte>): string {
    if |b| == 0 then ""
    else if |b| == 1 then [Letter(b[0] / 4), Letter(b[0] % 4 * 16)]
    else if |b| == 2 then [Letter(b[0] / 4), Letter(b[0] % 4 * 16 + b[1] / 16), Letter(b[1] % 16 * 4)]
    else
      [Letter(b[0] / 4), Letter(b[0] % 4 * 16 + b[1] / 16), Letter(b[1] % 16 * 4 + b[2] / 64), Letter(b[2] % 64)]
      + Body(b[3..])
  }

  function Repeat(c: char, n: nat): string {
    seq(n, _ => c)
  }

  function EncodePadded(b: seq<byte>): string {
    Body(b) + Repeat('=', if |b| % 3 == 0 then 0 else 3 - |b| % 3)
  }

  function StripPadding(s: string): string {
    if |s| > 0 && s[|s| - 1] == '=' then StripPadding(s[..|s| - 1]) else s
  }

  /** The unpadded text, as put into a cursor. */
  function Encode(b: seq<byte>): string {
    StripPadding(EncodePadded(b))
  }

  /** Adds back the padding a length leaves out: "=" * (-len % 4). */
  function Pad(s: string): string {
    s + Repeat('=', (4 - |s| % 4) % 4)
  }

  function Prepend(b: byte, rest: Option<seq<byte>>): Option<seq<byte>> {
    if rest.Some? then Some([b] + rest.value) else None
  }

  lemma PrependToShort(b: byte, c: byte)
    ensures Prepend(b, Some([])) == Some([b]) && Prepend(b, Some([c])) == Some([b, c])
  {
    assert [b] + [] == [b] && [b] + [c] == [b, c];
  }

  /** The decoder's loop: `pos` letters of the current group are read, `left` holds their unused bits. */
  function Scan(s: string, pos: nat, left: int, pads: nat): Option<seq<byte>>
    requires pos < 4 && 0 <= left < if pos == 1 then 64 else if pos == 2 then 16 else if pos == 3 then 4 else 1
  {
    if s == "" then (if pos == 0 then Some([]) else None)
    else if s[0] == '=' then
      if pos >= 2 && pos + pads + 1 >= 4 then Some([])
      else Scan(s[1..], pos, left, if pos >= 2 then pads + 1 else pads)
    else match Sextet(s[0])
      case None => Scan(s[1..], pos, left, pads)
      case Some(v) =>
        if pos == 0 then Scan(s[1..], 1, v, 0)
        else if pos == 1 then Prepend(left * 4 + v / 16, Scan(s[1..], 2, v % 16, 0))
        else if pos == 2 then Prepend(left * 16 + v / 4, Scan(s[1..], 3, v % 4, 0))
        else Prepend(left * 64 + v, Scan(s[1..], 0, 0, 0))
  }

  function Decode(s: string): Option<seq<byte>> {
    Scan(Pad(s), 0, 0, 0)
  }

  lemma LetterNotPad(v: sextet)
    ensures Letter(v) != '='
  {
  }

  lemma {:induction false} BodyShape(b: seq<byte>)
    ensures '=' !in Body(b) && |Body(b)| == (4 * |b| + 2) / 3
  {
    if |b| == 1 {
      LetterNotPad(b[0] / 4); LetterNotPad(b[0] % 4 * 16);
    } else if |b| == 2 {
      LetterNotPad(b[0] / 4); LetterNotPad(b[0] % 4 * 16 + b[1] / 16); LetterNotPad(b[1] % 16 * 4);
    } else if |b| >= 3 {
      LetterNotPad(b[0] / 4); LetterNotPad(b[0] % 4 * 16 + b[1] / 16);
      LetterNotPad(b[1] % 16 * 4 + b[2] / 64); LetterNotPad(b[2] % 64);
      BodyShape(b[3..]);
    }
  }

  lemma {:induction false} StripUndoesPadding(s: string, n: nat)
    requires '=' !in s
    ensures StripPadding(s + Repeat('=', n)) == s
  {
    if n > 0 {
      assert (s + Repeat('=', n))[..|s| + n - 1] == s + Repeat('=', n - 1);
      StripUndoesPadding(s, n - 1);
    } else {
      assert s + Repeat('=', 0) == s;
    }
  }

  /** Stripping the padding loses nothing: it is put back exactly from the length. */
  lemma PadUndoesStrip(b: seq<byte>)
    ensures Encode(b) == Body(b) && Pad(Encode(b)) == EncodePadded(b)
  {
    BodyShape(b);
    StripUndoesPadding(Body(b), if |b| % 3 == 0 then 0 else 3 - |b| % 3);
    LengthModFour(|b|);
  }

  lemma LengthModFour(n: nat)
    ensures (4 - (4 * n + 2) / 3 % 4) % 4 == if n % 3 == 0 then 0 else 3 - n % 3
  {
    var q, r := n / 3, n % 3;
    assert (4 * n + 2) / 3 == 4 * q + (4 * r + 2) / 3;
  }

  lemma {:induction false} ScanGroup(a: sextet, b: sextet, c: sextet, d: sextet, rest: string)
    ensures Scan([Letter(a), Letter(b), Letter(c), Letter(d)] + rest, 0, 0, 0) ==
            Prepend(a * 4 + b / 16, Prepend(b % 16 * 16 + c / 4, Prepend(c % 4 * 64 + d, Scan(rest, 0, 0, 0))))
  {
    SextetOfLetter(a); SextetOfLetter(b); SextetOfLetter(c); SextetOfLetter(d);
    var s := [Letter(a), Letter(b), Letter(c), Letter(d)] + rest;
    var s1, s2, s3 := s[1..], s[2..], s[3..];
    assert s1[1..] == s2 && s2[1..] == s3 && s3[1..] == rest;
    assert Scan(s3, 3, c % 4, 0) == Prepend(c % 4 * 64 + d, Scan(rest, 0, 0, 0));
    assert Scan(s2, 2, b % 16, 0) == Prepend(b % 16 * 16 + c / 4, Scan(s3, 3, c % 4, 0));
    assert Scan(s1, 1, a, 0) == Prepend(a * 4 + b / 16, Scan(s2, 2, b % 16, 0));
  }

  lemma {:induction false} ScanLastTwo(a: sextet, b: sextet)
    ensures Scan([Letter(a), Letter(b), '=', '='], 0, 0, 0) == Some([a * 4 + b / 16])
  {
    SextetOfLetter(a); SextetOfLetter(b);
    var s := [Letter(a), Letter(b), '=', '='];
    var s1, s2, s3 := s[1..], s[2..], s[3..];
    assert s1[1..] == s2 && s2[1..] == s3;
    assert Scan(s3, 2, b % 16, 1) == Some([]);
    assert Scan(s2, 2, b % 16, 0) == Some([]);
    PrependToShort(a * 4 + b / 16, 0);
  }

  lemma {:induction false} ScanLastThree(a: sextet, b: sextet, c: sextet)
    ensures Scan([Letter(a), Letter(b), Letter(c), '='], 0, 0, 0) == Some([a * 4 + b / 16, b % 16 * 16 + c / 4])
  {
    SextetOfLetter(a); SextetOfLetter(b); SextetOfLetter(c);
    var s := [Letter(a), Letter(b), Letter(c), '='];
    var s1, s2, s3 := s[1..], s[2..], s[3..];
    assert s1[1..] == s2 && s2[1..] == s3;
    assert Scan(s3, 3, c % 4, 0) == Some([]);
    PrependToShort(b % 16 * 16 + c / 4, 0);
    assert Scan(s2, 2, b % 16, 0) == Some([b % 16 * 16 + c / 4]);
    PrependToShort(a * 4 + b / 16, b % 16 * 16 + c / 4);
  }

  lemma PadGroup(b: seq<byte>)
    requires |b| >= 3
    ensures EncodePadded(b) ==
            [Letter(b[0] / 4), Letter(b[0] % 4 * 16 + b[1] / 16), Letter(b[1] % 16 * 4 + b[2] / 64), Letter(b[2] % 64)]
            + EncodePadded(b[3..])
  {
    assert (|b| - 3) % 3 == |b| % 3;
  }

  lemma PadOne(p: byte)
    ensures EncodePadded([p]) == [Letter(p / 4), Letter(p % 4 * 16), '=', '=']
  { }

  lemma PadTwo(p: byte, q: byte)
    ensures EncodePadded([p, q]) == [Letter(p / 4), Letter(p % 4 * 16 + q / 16), Letter(q % 16 * 4), '=']
  { }

  lemma ScanOneByte(p: byte)
    ensures Scan(EncodePadded([p]), 0, 0, 0) == Some([p])
  {
    PadOne(p);
    ScanLastTwo(p / 4, p % 4 * 16);
    GroupBytes(p, 0, 0);
  }

  lemma ScanTwoBytes(p: byte, q: byte)
    ensures Scan(EncodePadded([p, q]), 0, 0, 0) == Some([p, q])
  {
    PadTwo(p, q);
    ScanLastThree(p / 4, p % 4 * 16 + q / 16, q % 16 * 4);
    GroupBytes(p, q, 0);
  }

  lemma ScanThreeBytes(p: byte, q: byte, r: byte, rest: string)
    ensures var group := [Letter(p / 4), Letter(p % 4 * 16 + q / 16), Letter(q % 16 * 4 + r / 64), Letter(r % 64)];
            Scan(group + rest, 0, 0, 0) == Prepend(p, Prepend(q, Prepend(r, Scan(rest, 0, 0, 0))))
  {
    ScanGroup(p / 4, p % 4 * 16 + q / 16, q % 16 * 4 + r / 64, r % 64, rest);
    GroupBytes(p, q, r);
  }

  lemma PrependThree(b: seq<byte>)
    requires |b| >= 3
    ensures Prepend(b[0], Prepend(b[1], Prepend(b[2], Some(b[3..])))) == Some(b)
  {
    assert b == [b[0]] + ([b[1]] + ([b[2]] + b[3..]));
  }

  lemma {:induction false} ScanPadded(b: seq<byte>)
    ensures Scan(EncodePadded(b), 0, 0, 0) == Some(b)
  {
    if b == [] {
      assert EncodePadded([]) == "";
    } else if |b| == 1 {
      ScanOneByte(b[0]);
      assert b == [b[0]];
    } else if |b| == 2 {
      ScanTwoBytes(b[0], b[1]);
      assert b == [b[0], b[1]];
    } else {
      PadGroup(b);
      ScanThreeBytes(b[0], b[1], b[2], EncodePadded(b[3..]));
      ScanPadded(b[3..]);
      PrependThree(b);
    }
  }

  /** Six-bit values carry exactly the three bytes they were cut from. */
  lemma GroupBytes(p: byte, q: byte, r: byte)
    ensures p / 4 * 4 + (p % 4 * 16 + q / 16) / 16 == p
    ensures (p % 4 * 16 + q / 16) % 16 * 16 + (q % 16 * 4 + r / 64) / 4 == q
    ensures (q % 16 * 4 + r / 64) % 4 * 64 + r % 64 == r
  {
  }

  /** Decoding the unpadded text gives the bytes back, whatever they are. */
  lemma DecodeEncode(b: seq<byte>)
    ensures Decode(Encode(b)) == Some(b)
    ensures |Encode(b)| == (4 * |b| + 2) / 3
  {
    PadUndoesStrip(b);
    BodyShape(b);
    ScanPadded(b);
  }
}
