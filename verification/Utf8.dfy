/** UTF-8, and its decoding with each malformed piece replaced by U+FFFD. */
module Utf8 {
  import opened Base64

  const REPLACEMENT := '\U{fffd}'

  function EncodeChar(c: char): (b: seq<byte>)
    ensures 1 <= |b| <= 4
  {
    var n := c as int;
    if n < 0x80 then [n]
    else if n < 0x800 then [0xc0 + n / 64, 0x80 + n % 64]
    else if n < 0x10000 then [0xe0 + n / 4096, 0x80 + n / 64 % 64, 0x80 + n % 64]
    else [0xf0 + n / 262144, 0x80 + n / 4096 % 64, 0x80 + n / 64 % 64, 0x80 + n % 64]
  }

  function Encode(s: string): seq<byte> {
    if |s| == 0 then [] else EncodeChar(s[0]) + Encode(s[1..])
  }

  predicate Continues(b: int) {
    0x80 <= b < 0xc0
  }

  /** Whether `second` may follow `first`: no overlong form, no surrogate, nothing past U+10FFFF. */
  predicate May(first: int, second: int) {
    && Continues(second)
    && (first == 0xe0 ==> 0xa0 <= second)
    && (first == 0xed ==> second < 0xa0)
    && (first == 0xf0 ==> 0x90 <= second)
    && (first == 0xf4 ==> second < 0x90)
  }

  /** The first character, and how many bytes it or the malformed piece takes. */
  function DecodeFirst(b: seq<byte>): (r: (char, nat))
    requires |b| > 0
    ensures 1 <= r.1 <= |b|
  {
    var first := b[0];
    if first < 0x80 then (first as char, 1)
    else if !(0xc2 <= first < 0xf5) || |b| < 2 || !May(first, b[1]) then (REPLACEMENT, 1)
    else if first < 0xe0 then (((first as int - 0xc0) * 64 + (b[1] as int - 0x80)) as char, 2)
    else if |b| < 3 || !Continues(b[2]) then (REPLACEMENT, 2)
    else if first < 0xf0 then Three(first, b[1], b[2])
    else if |b| < 4 || !Continues(b[3]) then (REPLACEMENT, 3)
    else Four(first, b[1], b[2], b[3])
  }

  function Three(a: int, b: int, c: int): (r: (char, nat))
    requires 0xe0 <= a < 0xf0 && May(a, b) && Continues(c)
    ensures r.1 == 3 && r.0 as int == (a - 0xe0) * 4096 + (b - 0x80) * 64 + (c - 0x80)
  {
    var n := (a - 0xe0) * 4096 + (b - 0x80) * 64 + (c - 0x80);
    assert n < 0xd800 || 0xe000 <= n < 0x10000;
    (n as char, 3)
  }

  function Four(a: int, b: int, c: int, d: int): (r: (char, nat))
    requires 0xf0 <= a < 0xf5 && May(a, b) && Continues(c) && Continues(d)
    ensures r.1 == 4 && r.0 as int == (a - 0xf0) * 262144 + (b - 0x80) * 4096 + (c - 0x80) * 64 + (d - 0x80)
  {
    var n := (a - 0xf0) * 262144 + (b - 0x80) * 4096 + (c - 0x80) * 64 + (d - 0x80);
    assert 0x10000 <= n < 0x110000;
    (n as char, 4)
  }

  function Decode(b: seq<byte>): string
    decreases |b|
  {
    if |b| == 0 then ""
    else
      var (c, n) := DecodeFirst(b);
      [c] + Decode(b[n..])
  }

  lemma SixBitGroups(n: nat)
    ensures n == n / 64 * 64 + n % 64
    ensures n == n / 4096 * 4096 + n / 64 % 64 * 64 + n % 64
    ensures n == n / 262144 * 262144 + n / 4096 % 64 * 4096 + n / 64 % 64 * 64 + n % 64
  {
    assert n / 64 / 64 == n / 4096 && n / 4096 / 64 == n / 262144;
  }

  lemma DecodeThree(n: nat, rest: seq<byte>)
    requires 0x800 <= n < 0x10000 && !(0xd800 <= n < 0xe000)
    ensures DecodeFirst(EncodeChar(n as char) + rest) == (n as char, 3)
  {
    var a, b, c := 0xe0 + n / 4096, 0x80 + n / 64 % 64, 0x80 + n % 64;
    SixBitGroups(n);
    assert May(a, b);
    assert EncodeChar(n as char) == [a, b, c];
    assert Three(a, b, c).0 as int == n;
    var s := EncodeChar(n as char) + rest;
    assert s[0] == a && s[1] == b && s[2] == c;
  }

  lemma DecodeFour(n: nat, rest: seq<byte>)
    requires 0x10000 <= n < 0x110000
    ensures DecodeFirst(EncodeChar(n as char) + rest) == (n as char, 4)
  {
    var a, b, c, d := 0xf0 + n / 262144, 0x80 + n / 4096 % 64, 0x80 + n / 64 % 64, 0x80 + n % 64;
    SixBitGroups(n);
    assert May(a, b);
    assert EncodeChar(n as char) == [a, b, c, d];
    assert Four(a, b, c, d).0 as int == n;
    var s := EncodeChar(n as char) + rest;
    assert s[0] == a && s[1] == b && s[2] == c && s[3] == d;
  }

  lemma DecodeFirstEncoded(c: char, rest: seq<byte>)
    ensures DecodeFirst(EncodeChar(c) + rest) == (c, |EncodeChar(c)|)
  {
    var n := c as int;
    if 0x800 <= n < 0x10000 {
      DecodeThree(n, rest);
    } else if 0x10000 <= n {
      DecodeFour(n, rest);
    } else if 0x80 <= n {
      SixBitGroups(n);
      var s := EncodeChar(c) + rest;
      assert s[0] == 0xc0 + n / 64 && s[1] == 0x80 + n % 64;
    }
  }

  lemma {:induction false} DecodeEncode(s: string)
    ensures Decode(Encode(s)) == s
  {
    if |s| != 0 {
      var first, rest := EncodeChar(s[0]), Encode(s[1..]);
      DecodeFirstEncoded(s[0], rest);
      assert (first + rest)[|first|..] == rest;
      DecodeEncode(s[1..]);
    }
  }
}
