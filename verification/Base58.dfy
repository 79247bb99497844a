/** Recognising a Solana address: base58 text that stands for exactly 32 bytes. */
module Base58 {
  import opened Wrappers

  type byte = x: int | 0 <= x < 256

  /** The number a big-endian digit sequence denotes. */
  function Value(digits: seq<int>, radix: nat): int {
    if |digits| == 0 then 0
    else Value(digits[..|digits| - 1], radix) * radix + digits[|digits| - 1]
  }

  /** The digits of a number, without leading zeros; zero has none. */
  function Digits(n: nat, radix: nat): seq<int>
    requires radix >= 2
  {
    if n == 0 then [] else Digits(n / radix, radix) + [n % radix]
  }

  ghost predicate ValidDigits(digits: seq<int>, radix: nat) {
    forall i :: 0 <= i < |digits| ==> 0 <= digits[i] < radix
  }

  function Power(b: nat, e: nat): nat {
    if e == 0 then 1 else b * Power(b, e - 1)
  }

  lemma ValueSnoc(init: seq<int>, last: int, radix: nat)
    ensures Value(init + [last], radix) == Value(init, radix) * radix + last
  {
    assert (init + [last])[..|init|] == init;
  }

  lemma {:induction false} DigitsDenote(n: nat, radix: nat)
    requires radix >= 2
    ensures Value(Digits(n, radix), radix) == n && ValidDigits(Digits(n, radix), radix)
    ensures n > 0 ==> |Digits(n, radix)| > 0 && Digits(n, radix)[0] != 0
  {
    if n > 0 {
      Quotient(n, radix);
      DigitsDenote(n / radix, radix);
      ValueSnoc(Digits(n / radix, radix), n % radix, radix);
    }
  }

  lemma Quotient(n: nat, radix: nat)
    requires n > 0 && radix >= 2
    ensures n / radix < n && n == n / radix * radix + n % radix
  {
    ProductGrows(n / radix, radix);
  }

  lemma ProductGrows(q: nat, radix: nat)
    requires radix >= 2
    ensures q * radix >= q * 2
  { }

  lemma ScaleBelow(v: int, p: int, last: int, radix: int)
    requires 0 <= v < p && 0 <= last < radix
    ensures 0 <= v * radix + last < p * radix
  {
    assert 0 <= v * radix;
    assert (v + 1) * radix <= p * radix;
  }

  lemma ScaleAbove(p: int, v: int, radix: int)
    requires p <= v && radix >= 0
    ensures p * radix <= v * radix
  {
  }

  lemma {:induction false} ValueBounds(digits: seq<int>, radix: nat)
    requires radix >= 2 && ValidDigits(digits, radix)
    ensures 0 <= Value(digits, radix) < Power(radix, |digits|)
    ensures |digits| > 0 && digits[0] != 0 ==> Power(radix, |digits| - 1) <= Value(digits, radix)
  {
    if |digits| > 0 {
      var init, last := digits[..|digits| - 1], digits[|digits| - 1];
      ValueBounds(init, radix);
      ScaleBelow(Value(init, radix), Power(radix, |init|), last, radix);
      if |init| > 0 && digits[0] != 0 {
        assert init[0] == digits[0];
        ScaleAbove(Power(radix, |init| - 1), Value(init, radix), radix);
      }
    }
  }

  lemma SmallMultiple(d: int, radix: int)
    requires -radix < d * radix < radix
    ensures d == 0
  {
    assert d >= 1 ==> d * radix >= radix;
    assert d <= -1 ==> d * radix <= -radix;
  }

  lemma DivMod(q: nat, r: nat, radix: nat)
    requires radix > 0 && r < radix
    ensures (q * radix + r) / radix == q && (q * radix + r) % radix == r
  {
    var n := q * radix + r;
    assert n == n / radix * radix + n % radix;
    assert (n / radix - q) * radix == r - n % radix;
    SmallMultiple(n / radix - q, radix);
  }

  lemma {:induction false} DigitsOfValue(digits: seq<int>, radix: nat)
    requires radix >= 2 && ValidDigits(digits, radix)
    requires |digits| > 0 ==> digits[0] != 0
    ensures Value(digits, radix) >= 0 && Digits(Value(digits, radix), radix) == digits
  {
    if |digits| > 0 {
      var init, last := digits[..|digits| - 1], digits[|digits| - 1];
      ValueBounds(init, radix);
      ValueBounds(digits, radix);
      assert |init| > 0 ==> init[0] == digits[0];
      DigitsOfValue(init, radix);
      DivMod(Value(init, radix), last, radix);
      PowerPositive(radix, |digits| - 1);
      assert digits == init + [last];
    }
  }

  lemma {:induction false} PowerPositive(b: nat, e: nat)
    requires b > 0
    ensures Power(b, e) > 0
  {
    if e > 0 { PowerPositive(b, e - 1); }
  }

  function Zeros(n: nat): seq<int> {
    seq(n, _ => 0)
  }

  lemma {:induction false} LeadingZerosDenoteNothing(n: nat, digits: seq<int>, radix: nat)
    ensures Value(Zeros(n) + digits, radix) == Value(digits, radix)
  {
    if |digits| > 0 {
      var init := digits[..|digits| - 1];
      assert (Zeros(n) + digits)[..n + |digits| - 1] == Zeros(n) + init;
      LeadingZerosDenoteNothing(n, init, radix);
    } else if n > 0 {
      assert Zeros(n) + digits == Zeros(n);
      assert Zeros(n)[..n - 1] == Zeros(n - 1) + [];
      LeadingZerosDenoteNothing(n - 1, [], radix);
      assert Zeros(n - 1) + [] == Zeros(n - 1);
    } else {
      assert Zeros(n) + digits == digits;
    }
  }

  /** How many zeros a digit sequence starts with. */
  function LeadingZeros(digits: seq<int>): (n: nat)
    ensures n <= |digits|
  {
    if |digits| > 0 && digits[0] == 0 then 1 + LeadingZeros(digits[1..]) else 0
  }

  lemma {:induction false} SplitZeros(digits: seq<int>)
    ensures var n := LeadingZeros(digits);
            digits == Zeros(n) + digits[n..] && (|digits[n..]| > 0 ==> digits[n..][0] != 0)
  {
    if |digits| > 0 && digits[0] == 0 {
      SplitZeros(digits[1..]);
      var n := LeadingZeros(digits);
      assert digits[1..][n - 1..] == digits[n..];
      assert digits == [0] + digits[1..] && Zeros(n) == [0] + Zeros(n - 1);
    } else {
      assert digits[0..] == digits;
      assert Zeros(0) + digits[0..] == digits;
    }
  }

  lemma {:induction false} LeadingZerosOf(n: nat, digits: seq<int>)
    requires |digits| > 0 ==> digits[0] != 0
    ensures LeadingZeros(Zeros(n) + digits) == n
  {
    if n > 0 {
      assert (Zeros(n) + digits)[1..] == Zeros(n - 1) + digits;
      LeadingZerosOf(n - 1, digits);
    } else {
      assert Zeros(0) + digits == digits;
    }
  }

  /** Digits in another radix; every leading zero is kept as a leading zero. */
  function Convert(digits: seq<int>, from: nat, to: nat): seq<int>
    requires to >= 2
  {
    var v := Value(digits, from);
    Zeros(LeadingZeros(digits)) + if v < 0 then [] else Digits(v, to)
  }

  /** Changing the radix there and back is the identity. */
  lemma ConvertBack(digits: seq<int>, from: nat, to: nat)
    requires from >= 2 && to >= 2 && ValidDigits(digits, from)
    ensures Convert(Convert(digits, from, to), to, from) == digits
    ensures ValidDigits(Convert(digits, from, to), to)
  {
    var n := LeadingZeros(digits);
    var rest := digits[n..];
    SplitZeros(digits);
    ValueBounds(digits, from);
    LeadingZerosDenoteNothing(n, rest, from);
    DigitsOfValue(rest, from);
    var v := Value(digits, from);
    var other := Digits(v, to);
    DigitsDenote(v, to);
    LeadingZerosDenoteNothing(n, other, to);
    LeadingZerosOf(n, other);
  }

  /** The alphabet leaves out 0, I, O and l. */
  function Symbol(d: int): char
    requires 0 <= d < 58
  {
    if d < 9 then ('1' as int + d) as char
    else if d < 17 then ('A' as int + d - 9) as char
    else if d < 22 then ('J' as int + d - 17) as char
    else if d < 33 then ('P' as int + d - 22) as char
    else if d < 44 then ('a' as int + d - 33) as char
    else ('m' as int + d - 44) as char
  }

  function SymbolIndex(c: char): (d: int)
    ensures -1 <= d < 58
    ensures d >= 0 ==> Symbol(d) == c
  {
    if '1' <= c <= '9' then c as int - '1' as int
    else if 'A' <= c <= 'H' then c as int - 'A' as int + 9
    else if 'J' <= c <= 'N' then c as int - 'J' as int + 17
    else if 'P' <= c <= 'Z' then c as int - 'P' as int + 22
    else if 'a' <= c <= 'k' then c as int - 'a' as int + 33
    else if 'm' <= c <= 'z' then c as int - 'm' as int + 44
    else -1
  }

  lemma IndexOfSymbol(d: int)
    requires 0 <= d < 58
    ensures SymbolIndex(Symbol(d)) == d
  {
  }

  /** The alphabet: the ASCII digits and letters but for 0, I, O and l, in ASCII order. */
  lemma AlphabetIs(d: int, c: char)
    requires 0 <= d < 58
    ensures var alphanumeric := (x: char) => '0' <= x <= '9' || 'A' <= x <= 'Z' || 'a' <= x <= 'z';
            && alphanumeric(Symbol(d)) && Symbol(d) !in {'0', 'I', 'O', 'l'}
            && (d < 57 ==> Symbol(d) < Symbol(d + 1))
            && (alphanumeric(c) && c !in {'0', 'I', 'O', 'l'} ==> SymbolIndex(c) >= 0 && Symbol(SymbolIndex(c)) == c)
  { }

  function Symbols(digits: seq<int>): string
    requires forall i :: 0 <= i < |digits| ==> 0 <= digits[i] < 58
  {
    seq(|digits|, i requires 0 <= i < |digits| => Symbol(digits[i]))
  }

  function Indices(text: string): seq<int> {
    seq(|text|, i requires 0 <= i < |text| => SymbolIndex(text[i]))
  }

  predicate InAlphabet(text: string) {
    forall i :: 0 <= i < |text| ==> SymbolIndex(text[i]) >= 0
  }

  ghost function Encode(bytes: seq<byte>): string {
    ConvertBack(bytes, 256, 58);
    Symbols(Convert(bytes, 256, 58))
  }

  ghost function Decode(text: string): Option<seq<byte>> {
    if InAlphabet(text) then
      ConvertBack(Indices(text), 58, 256);
      var bytes: seq<byte> := Convert(Indices(text), 58, 256);
      Some(bytes)
    else None
  }

  /** An encoding is the one number the bytes are, with a leading "1" for each leading zero byte. */
  lemma EncodingDenotes(bytes: seq<byte>)
    ensures var digits := Indices(Encode(bytes));
            && Value(digits, 58) == Value(bytes, 256) && LeadingZeros(digits) == LeadingZeros(bytes)
            && forall i :: 0 <= i < |digits| ==> 0 <= digits[i] < 58
  {
    ConvertBack(bytes, 256, 58);
    DecodeEncode(bytes);
    ConvertDenotes(bytes, 256, 58);
    var digits := Convert(bytes, 256, 58);
    forall i | 0 <= i < |digits| ensures Indices(Symbols(digits))[i] == digits[i] {
      IndexOfSymbol(digits[i]);
    }
    assert Indices(Encode(bytes)) == digits;
  }

  lemma ConvertDenotes(digits: seq<int>, from: nat, to: nat)
    requires from >= 2 && to >= 2 && ValidDigits(digits, from)
    ensures Value(Convert(digits, from, to), to) == Value(digits, from)
    ensures LeadingZeros(Convert(digits, from, to)) == LeadingZeros(digits)
  {
    var n, v := LeadingZeros(digits), Value(digits, from);
    ValueBounds(digits, from);
    DigitsDenote(v, to);
    LeadingZerosDenoteNothing(n, Digits(v, to), to);
    LeadingZerosOf(n, Digits(v, to));
  }

  /** Decoding undoes encoding. */
  lemma DecodeEncode(bytes: seq<byte>)
    ensures Decode(Encode(bytes)) == Some(bytes)
  {
    ConvertBack(bytes, 256, 58);
    var digits := Convert(bytes, 256, 58);
    forall i | 0 <= i < |digits| ensures Indices(Symbols(digits))[i] == digits[i] {
      IndexOfSymbol(digits[i]);
    }
    assert Indices(Symbols(digits)) == digits;
  }

  /** Encoding undoes decoding: a text has one reading and a byte string one spelling. */
  lemma EncodeDecode(text: string)
    requires Decode(text).Some?
    ensures Encode(Decode(text).value) == text
  {
    ConvertBack(Indices(text), 58, 256);
    var bytes := Decode(text).value;
    ConvertBack(bytes, 256, 58);
    assert Convert(bytes, 256, 58) == Indices(text);
    assert Symbols(Indices(text)) == text;
  }

  lemma {:induction false} PowerAdd(b: nat, m: nat, n: nat)
    ensures Power(b, m + n) == Power(b, m) * Power(b, n)
  {
    if m > 0 {
      PowerAdd(b, m - 1, n);
      assert b * (Power(b, m - 1) * Power(b, n)) == b * Power(b, m - 1) * Power(b, n);
    }
  }

  lemma {:induction false} PowerMonotone(b: nat, m: nat, n: nat)
    requires b > 0 && m <= n
    ensures Power(b, m) <= Power(b, n)
  {
    if m < n {
      PowerMonotone(b, m, n - 1);
      ScaleAbove(1, b, Power(b, n - 1));
    }
  }

  lemma {:induction false} SmallerBase(e: nat)
    ensures Power(58, e) <= Power(256, e)
  {
    if e > 0 { SmallerBase(e - 1); }
  }

  /** Eleven base58 digits hold eight bytes. */
  lemma ElevenHoldEight()
    ensures Power(58, 11) >= Power(256, 8)
  {
    assert Power(58, 5) == 656356768;
    assert Power(58, 11) == 58 * (656356768 * 656356768) by {
      PowerAdd(58, 5, 5);
      PowerAdd(58, 1, 10);
      assert Power(58, 1) == 58;
    }
    assert Power(256, 4) == 4294967296;
    PowerAdd(256, 4, 4);
  }

  lemma MultiplyBounds(a: nat, b: nat, c: nat, d: nat)
    requires a <= b && c <= d
    ensures a * c <= b * d
  {
    assert a * c <= b * c;
    assert b * c <= b * d;
  }

  lemma FortyFourHoldThirtyTwo()
    ensures Power(58, 44) >= Power(256, 32)
  {
    ElevenHoldEight();
    PowerAdd(58, 11, 11);
    PowerAdd(256, 8, 8);
    MultiplyBounds(Power(256, 8), Power(58, 11), Power(256, 8), Power(58, 11));
    PowerAdd(58, 22, 22);
    PowerAdd(256, 16, 16);
    MultiplyBounds(Power(256, 16), Power(58, 22), Power(256, 16), Power(58, 22));
  }

  /** k + 12 base58 digits hold k bytes, for every k up to 32. */
  lemma {:induction false} TwelveMoreHold(k: nat)
    requires k <= 32
    ensures Power(58, k + 12) >= Power(256, k)
    decreases 32 - k
  {
    if k == 32 {
      FortyFourHoldThirtyTwo();
    } else {
      TwelveMoreHold(k + 1);
      assert Power(58, k + 13) == 58 * Power(58, k + 12);
      assert Power(256, k + 1) == 256 * Power(256, k);
    }
  }

  lemma EncodeLength(bytes: seq<byte>)
    ensures Value(bytes, 256) >= 0
    ensures |Encode(bytes)| == LeadingZeros(bytes) + |Digits(Value(bytes, 256), 58)|
  {
    ValueBounds(bytes, 256);
  }

  /** The value of bytes lies where those after the leading zeros put it. */
  lemma BytesBound(bytes: seq<byte>)
    ensures var k, v := |bytes| - LeadingZeros(bytes), Value(bytes, 256);
            0 <= v < Power(256, k) && (k > 0 ==> Power(256, k - 1) <= v)
  {
    var z := LeadingZeros(bytes);
    var rest: seq<byte> := bytes[z..];
    SplitZeros(bytes);
    LeadingZerosDenoteNothing(z, rest, 256);
    ValueBounds(rest, 256);
  }

  /** The length guard turns away no encoding of 32 bytes. */
  lemma ThirtyTwoBytesFit(bytes: seq<byte>)
    requires |bytes| == 32
    ensures 32 <= |Encode(bytes)| <= 44
  {
    EncodingIsAtMostTwelveLonger(bytes);
  }

  lemma EncodingIsAtMostTwelveLonger(bytes: seq<byte>)
    requires |bytes| <= 32
    ensures |bytes| <= |Encode(bytes)| <= |bytes| + 12
  {
    var v := Value(bytes, 256);
    EncodeLength(bytes);
    BytesBound(bytes);
    DigitsDenote(v, 58);
    ValueBounds(Digits(v, 58), 58);
    DigitCountFits(|bytes| - LeadingZeros(bytes), |Digits(v, 58)|, v);
  }

  /** A number of k bytes has from k to k + 12 base58 digits. */
  lemma DigitCountFits(k: nat, d: nat, v: nat)
    requires k <= 32 && v < Power(256, k) && (k > 0 ==> Power(256, k - 1) <= v)
    requires v < Power(58, d) && (d > 0 ==> Power(58, d - 1) <= v)
    ensures k <= d <= k + 12
  {
    if d < k {
      SmallerBase(d);
      PowerMonotone(256, d, k - 1);
    }
    TwelveMoreHold(k);
    if d > k + 12 { PowerMonotone(58, k + 12, d - 1); }
  }

  function BitLength(n: nat): nat {
    |Digits(n, 2)|
  }

  lemma {:induction false} BytesFromBits(n: nat)
    ensures (BitLength(n) + 7) / 8 == |Digits(n, 256)|
  {
    if n >= 256 {
      BytesFromBits(n / 256);
      EightBits(n);
    } else if n > 0 {
      assert Digits(n, 256) == Digits(0, 256) + [n];
      SmallBits(n);
    }
  }

  lemma {:induction false} EightBits(n: nat)
    requires n >= 256
    ensures BitLength(n) == BitLength(n / 256) + 8
  {
    var n1, n2, n3, n4 := n / 2, n / 4, n / 8, n / 16;
    var n5, n6, n7, n8 := n / 32, n / 64, n / 128, n / 256;
    assert n1 / 2 == n2 && n2 / 2 == n3 && n3 / 2 == n4 && n4 / 2 == n5;
    assert n5 / 2 == n6 && n6 / 2 == n7 && n7 / 2 == n8;
    assert BitLength(n7) == BitLength(n8) + 1;
    assert BitLength(n6) == BitLength(n8) + 2;
    assert BitLength(n5) == BitLength(n8) + 3;
    assert BitLength(n4) == BitLength(n8) + 4;
    assert BitLength(n3) == BitLength(n8) + 5;
    assert BitLength(n2) == BitLength(n8) + 6;
    assert BitLength(n1) == BitLength(n8) + 7;
  }

  lemma SmallBits(n: nat)
    requires 0 < n < 256
    ensures 1 <= BitLength(n) <= 8
  {
    DigitsDenote(n, 2);
    ValueBounds(Digits(n, 2), 2);
    assert Power(2, 4) == 16;
    PowerAdd(2, 4, 4);
    if BitLength(n) > 8 { PowerMonotone(2, 8, BitLength(n) - 1); }
  }

  /** Accepts a text exactly when it is the encoding of one 32-byte string. */
  method IsBase58Pubkey(value: string) returns (ok: bool)
    ensures ok <==> exists bytes: seq<byte> :: |bytes| == 32 && Encode(bytes) == value
  {
    if !(32 <= |value| <= 44) || exists i :: 0 <= i < |value| && SymbolIndex(value[i]) < 0 {
      forall bytes: seq<byte> | |bytes| == 32 ensures Encode(bytes) != value {
        ThirtyTwoBytesFit(bytes);
        DecodeEncode(bytes);
      }
      return false;
    }
    var number := 0;
    for i := 0 to |value|
      invariant number == Value(Indices(value[..i]), 58)
      invariant number >= 0
    {
      number := number * 58 + SymbolIndex(value[i]);
      assert Indices(value[..i + 1])[..i] == Indices(value[..i]);
    }
    assert value[..|value|] == value;
    var leading := 0;
    while leading < |value| && value[leading] == '1'
      invariant leading <= |value|
      invariant LeadingZeros(Indices(value)) == leading + LeadingZeros(Indices(value)[leading..])
    {
      assert Indices(value)[leading..][1..] == Indices(value)[leading + 1..];
      leading := leading + 1;
    }
    ok := leading + (BitLength(number) + 7) / 8 == 32;
    assert leading == LeadingZeros(Indices(value));
    BytesFromBits(number);
    assert |Decode(value).value| == leading + |Digits(number, 256)|;
    EncodeDecode(value);
    forall bytes: seq<byte> | Encode(bytes) == value ensures bytes == Decode(value).value {
      DecodeEncode(bytes);
    }
  }
}
