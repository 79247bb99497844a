/**
 The JSON a cursor carries: one object without nesting or spaces, whose values are strings or
 numbers. Strings are escaped to ASCII as `json.dumps` does and read back as `json.loads` does.
 */
module FlatJson {
  import opened Wrappers

  datatype Value = Text(text: string) | Number(token: string)

  type Field = (string, Value)

  function HexDigit(n: int): char
    requires 0 <= n < 16
  {
    if n < 10 then ('0' as int + n) as char else ('a' as int + n - 10) as char
  }

  function HexValue(c: char): int
    ensures -1 <= HexValue(c) < 16
  {
    if '0' <= c <= '9' then c as int - '0' as int
    else if 'a' <= c <= 'f' then c as int - 'a' as int + 10
    else if 'A' <= c <= 'F' then c as int - 'A' as int + 10
    else -1
  }

  lemma HexRoundTrip(n: int)
    requires 0 <= n < 16
    ensures HexValue(HexDigit(n)) == n && 0x20 <= HexDigit(n) as int < 0x7f
  {
  }

  /** A UTF-16 unit as backslash, u and four hexadecimal digits. */
  function Unit(n: int): string
    requires 0 <= n < 0x10000
  {
    ['\\', 'u', HexDigit(n / 4096), HexDigit(n / 256 % 16), HexDigit(n / 16 % 16), HexDigit(n % 16)]
  }

  function EscapeChar(c: char): string {
    if c == '\"' then "\\\""
    else if c == '\\' then "\\\\"
    else if c == '\n' then "\\n"
    else if c == '\r' then "\\r"
    else if c == '\t' then "\\t"
    else if c as int == 0x0c then "\\f"
    else if c as int == 0x08 then "\\b"
    else if 0x20 <= c as int < 0x7f then [c]
    else if c as int < 0x10000 then Unit(c as int)
    else Unit(0xd800 + (c as int - 0x10000) / 0x400) + Unit(0xdc00 + (c as int - 0x10000) % 0x400)
  }

  function Escape(s: string): string {
    if s == "" then "" else EscapeChar(s[0]) + Escape(s[1..])
  }

  /** The value of four hexadecimal digits at the head of `s`, or -1. */
  function Hex4(s: string): int
    ensures -1 <= Hex4(s) < 0x10000
  {
    if |s| < 4 || HexValue(s[0]) < 0 || HexValue(s[1]) < 0 || HexValue(s[2]) < 0 || HexValue(s[3]) < 0 then -1
    else HexValue(s[0]) * 4096 + HexValue(s[1]) * 256 + HexValue(s[2]) * 16 + HexValue(s[3])
  }

  function Put(c: char, rest: Option<(string, string)>): Option<(string, string)> {
    if rest.Some? then Some(([c] + rest.value.0, rest.value.1)) else None
  }

  /** Reads a string up to its closing quote: the text, and what follows the quote. */
  function ReadString(s: string): Option<(string, string)> {
    if s == "" || s[0] as int < 0x20 then None
    else if s[0] == '\"' then Some(("", s[1..]))
    else if s[0] != '\\' then Put(s[0], ReadString(s[1..]))
    else if |s| < 2 then None
    else if s[1] == '\"' || s[1] == '\\' || s[1] == '/' then Put(s[1], ReadString(s[2..]))
    else if s[1] == 'n' then Put('\n', ReadString(s[2..]))
    else if s[1] == 'r' then Put('\r', ReadString(s[2..]))
    else if s[1] == 't' then Put('\t', ReadString(s[2..]))
    else if s[1] == 'f' then Put(0x0c as char, ReadString(s[2..]))
    else if s[1] == 'b' then Put(0x08 as char, ReadString(s[2..]))
    else if s[1] != 'u' || Hex4(s[2..]) < 0 then None
    else
      var unit := Hex4(s[2..]);
      if unit < 0xd800 || 0xe000 <= unit then Put(unit as char, ReadString(s[6..]))
      else if unit < 0xdc00 && |s| >= 12 && s[6] == '\\' && s[7] == 'u' && 0xdc00 <= Hex4(s[8..]) < 0xe000 then
        Put((0x10000 + (unit - 0xd800) * 0x400 + (Hex4(s[8..]) - 0xdc00)) as char, ReadString(s[12..]))
      else None
  }

  lemma HexSplit(n: int)
    requires 0 <= n < 0x10000
    ensures n == n / 4096 * 4096 + n / 256 % 16 * 256 + n / 16 % 16 * 16 + n % 16
    ensures n / 4096 < 16
  {
    assert n / 16 / 16 == n / 256 && n / 256 / 16 == n / 4096;
  }

  lemma Hex4Reads(a: int, b: int, c: int, d: int, s: string)
    requires 0 <= a < 16 && 0 <= b < 16 && 0 <= c < 16 && 0 <= d < 16 && |s| >= 4
    requires s[0] == HexDigit(a) && s[1] == HexDigit(b) && s[2] == HexDigit(c) && s[3] == HexDigit(d)
    ensures Hex4(s) == a * 4096 + b * 256 + c * 16 + d
  {
    HexRoundTrip(a);
    HexRoundTrip(b);
    HexRoundTrip(c);
    HexRoundTrip(d);
  }

  lemma UnitReads(n: int, s: string)
    requires 0 <= n < 0x10000 && |s| >= 6 && s[..6] == Unit(n)
    ensures s[0] == '\\' && s[1] == 'u' && Hex4(s[2..]) == n
  {
    HexSplit(n);
    assert s[0] == s[..6][0] && s[1] == s[..6][1];
    var t := s[2..];
    assert t[0] == s[..6][2] && t[1] == s[..6][3] && t[2] == s[..6][4] && t[3] == s[..6][5];
    Hex4Reads(n / 4096, n / 256 % 16, n / 16 % 16, n % 16, t);
  }

  lemma {:induction false} BmpUnitReads(c: char, s: string)
    requires c as int < 0x10000 && |s| >= 6 && s[..6] == Unit(c as int)
    ensures ReadString(s) == Put(c, ReadString(s[6..]))
  {
    UnitReads(c as int, s);
  }

  /** The two surrogates of an astral character, and the character back from them. */
  lemma SurrogatesJoin(c: char)
    requires c as int >= 0x10000
    ensures var n := c as int - 0x10000;
            && 0 <= n / 0x400 < 0x400 && 0 <= n % 0x400 < 0x400
            && 0x10000 + n / 0x400 * 0x400 + n % 0x400 == c as int
  { }

  lemma {:induction false} SurrogatesRead(s: string, high: int, low: int, c: char)
    requires |s| >= 12 && s[0] == '\\' && s[1] == 'u' && s[6] == '\\' && s[7] == 'u'
    requires Hex4(s[2..]) == 0xd800 + high && Hex4(s[8..]) == 0xdc00 + low
    requires 0 <= high < 0x400 && 0 <= low < 0x400 && 0x10000 + high * 0x400 + low == c as int
    ensures ReadString(s) == Put(c, ReadString(s[12..]))
  { }

  lemma SecondUnitReads(n: int, s: string)
    requires 0 <= n < 0x10000 && |s| >= 12 && s[6..12] == Unit(n)
    ensures s[6] == '\\' && s[7] == 'u' && Hex4(s[8..]) == n
  {
    var t := s[6..];
    assert t[..6] == s[6..12];
    UnitReads(n, t);
    assert t[0] == s[6] && t[1] == s[7] && t[2..] == s[8..];
  }

  lemma {:induction false} AstralUnitsRead(c: char, s: string)
    requires c as int >= 0x10000 && |s| >= 12
    requires s[..6] == Unit(0xd800 + (c as int - 0x10000) / 0x400)
    requires s[6..12] == Unit(0xdc00 + (c as int - 0x10000) % 0x400)
    ensures ReadString(s) == Put(c, ReadString(s[12..]))
  {
    var n := c as int - 0x10000;
    SurrogatesJoin(c);
    UnitReads(0xd800 + n / 0x400, s);
    SecondUnitReads(0xdc00 + n % 0x400, s);
    SurrogatesRead(s, n / 0x400, n % 0x400, c);
  }

  lemma {:induction false} EscapeCharReads(c: char, rest: string)
    ensures ReadString(EscapeChar(c) + rest) == Put(c, ReadString(rest))
  {
    var s := EscapeChar(c) + rest;
    if |EscapeChar(c)| == 1 {
      assert s[1..] == rest;
    } else if |EscapeChar(c)| == 2 {
      assert s[2..] == rest;
    } else if c as int < 0x10000 {
      assert s[..6] == Unit(c as int) && s[6..] == rest;
      BmpUnitReads(c, s);
    } else {
      assert s[..6] == Unit(0xd800 + (c as int - 0x10000) / 0x400);
      assert s[6..12] == Unit(0xdc00 + (c as int - 0x10000) % 0x400) && s[12..] == rest;
      AstralUnitsRead(c, s);
    }
  }

  lemma EscapedText(c: char, escaped: string, rest: string)
    ensures EscapeChar(c) + escaped + "\"" + rest == EscapeChar(c) + (escaped + "\"" + rest)
  { }

  lemma PutFirst(v: string, rest: string)
    requires v != ""
    ensures Put(v[0], Some((v[1..], rest))) == Some((v, rest))
  {
    assert v == [v[0]] + v[1..];
  }

  lemma QuoteEnds(rest: string)
    ensures ReadString("" + "\"" + rest) == Some(("", rest))
  {
    assert ("" + "\"" + rest)[1..] == rest;
  }

  /** Reading undoes escaping for every text, astral characters included. */
  lemma {:induction false} ReadEscaped(v: string, rest: string)
    ensures ReadString(Escape(v) + "\"" + rest) == Some((v, rest))
  {
    if v == "" {
      QuoteEnds(rest);
    } else {
      EscapedText(v[0], Escape(v[1..]), rest);
      EscapeCharReads(v[0], Escape(v[1..]) + "\"" + rest);
      ReadEscaped(v[1..], rest);
      PutFirst(v, rest);
    }
  }

  function Quoted(s: string): string {
    "\"" + Escape(s) + "\""
  }

  function WriteValue(v: Value): string {
    match v case Text(t) => Quoted(t) case Number(n) => n
  }

  function WriteField(f: Field): string {
    Quoted(f.0) + ":" + WriteValue(f.1)
  }

  function WriteMembers(fields: seq<Field>): string
    requires |fields| > 0
  {
    if |fields| == 1 then WriteField(fields[0]) else WriteField(fields[0]) + "," + WriteMembers(fields[1..])
  }

  function WriteObject(fields: seq<Field>): string
    requires |fields| > 0
  {
    "{" + WriteMembers(fields) + "}"
  }

  predicate EndsToken(c: char) {
    c == ',' || c == '}'
  }

  function TokenLength(s: string): (n: nat)
    ensures n <= |s|
  {
    if s == "" || EndsToken(s[0]) then 0 else 1 + TokenLength(s[1..])
  }

  /** A value, and what follows it. */
  function ReadValue(s: string): Option<(Value, string)> {
    if s == "" then None
    else if s[0] == '\"' then
      match ReadString(s[1..])
      case None => None
      case Some((t, rest)) => Some((Text(t), rest))
    else
      var n := TokenLength(s);
      if n == 0 then None else Some((Number(s[..n]), s[n..]))
  }

  /** One `"key":value`, and what follows it. */
  function ReadField(s: string): Option<(Field, string)> {
    if s == "" || s[0] != '\"' then None
    else match ReadString(s[1..])
      case None => None
      case Some((key, rest)) =>
        if rest == "" || rest[0] != ':' then None
        else match ReadValue(rest[1..])
          case None => None
          case Some((value, tail)) => Some(((key, value), tail))
  }

  /** Members up to the closing brace, which must end the text. */
  function ReadMembers(s: string): Option<seq<Field>>
    decreases |s|
  {
    match ReadField(s)
    case None => None
    case Some((f, rest)) =>
      if rest == "}" then Some([f])
      else if rest == "" || rest[0] != ',' || |rest| >= |s| then None
      else match ReadMembers(rest[1..])
        case None => None
        case Some(fields) => Some([f] + fields)
  }

  function ReadObject(s: string): Option<seq<Field>> {
    if s == "{}" then Some([])
    else if s == "" || s[0] != '{' then None
    else ReadMembers(s[1..])
  }

  /** A number token a writer may emit: not empty, no quote, and nothing that ends a value. */
  ghost predicate PlainToken(n: string) {
    n != "" && n[0] != '\"' && forall i :: 0 <= i < |n| ==> !EndsToken(n[i])
  }

  ghost predicate Writable(f: Field) {
    f.1.Number? ==> PlainToken(f.1.token)
  }

  lemma {:induction false} TokenReads(n: string, rest: string)
    requires forall i :: 0 <= i < |n| ==> !EndsToken(n[i])
    requires rest != "" && EndsToken(rest[0])
    ensures TokenLength(n + rest) == |n|
  {
    if n == "" {
      assert n + rest == rest;
    } else {
      assert (n + rest)[1..] == n[1..] + rest;
      TokenReads(n[1..], rest);
    }
  }

  lemma ValueReads(v: Value, rest: string)
    requires v.Number? ==> PlainToken(v.token)
    requires rest != "" && EndsToken(rest[0])
    ensures ReadValue(WriteValue(v) + rest) == Some((v, rest))
  {
    var s := WriteValue(v) + rest;
    match v
    case Text(t) =>
      assert s[1..] == Escape(t) + "\"" + rest;
      ReadEscaped(t, rest);
    case Number(n) =>
      TokenReads(n, rest);
      assert s[..|n|] == n && s[|n|..] == rest;
  }

  lemma FieldText(f: Field, rest: string)
    ensures WriteField(f) + rest == "\"" + (Escape(f.0) + "\"" + (":" + (WriteValue(f.1) + rest)))
  { }

  lemma FieldReads(f: Field, rest: string)
    requires Writable(f) && rest != "" && EndsToken(rest[0])
    ensures ReadField(WriteField(f) + rest) == Some((f, rest))
  {
    var value := WriteValue(f.1) + rest;
    var after := ":" + value;
    FieldText(f, rest);
    ReadEscaped(f.0, after);
    assert after[1..] == value;
    ValueReads(f.1, rest);
  }

  /** What a reading of the members adds to one of them. */
  function AndMore(f: Field, rest: Option<seq<Field>>): Option<seq<Field>> {
    if rest.Some? then Some([f] + rest.value) else None
  }

  lemma {:induction false} MoreMembers(s: string, f: Field, rest: string)
    requires ReadField(s) == Some((f, "," + rest)) && |rest| + 1 < |s|
    ensures ReadMembers(s) == AndMore(f, ReadMembers(rest))
  {
    assert ("," + rest)[1..] == rest;
  }

  lemma MemberReads(f: Field, rest: string)
    requires Writable(f)
    ensures ReadMembers(WriteField(f) + ("," + rest)) == AndMore(f, ReadMembers(rest))
  {
    FieldReads(f, "," + rest);
    MoreMembers(WriteField(f) + ("," + rest), f, rest);
  }

  lemma LastMemberReads(f: Field)
    requires Writable(f)
    ensures ReadMembers(WriteField(f) + "}") == Some([f])
  {
    FieldReads(f, "}");
  }

  lemma CommaJoins(a: string, b: string)
    ensures (a + "," + b) + "}" == a + ("," + (b + "}"))
  { }

  lemma MembersText(fields: seq<Field>)
    requires |fields| > 1
    ensures WriteMembers(fields) + "}" == WriteField(fields[0]) + ("," + (WriteMembers(fields[1..]) + "}"))
  {
    CommaJoins(WriteField(fields[0]), WriteMembers(fields[1..]));
  }

  lemma {:induction false} MembersRead(fields: seq<Field>)
    requires |fields| > 0 && forall f :: f in fields ==> Writable(f)
    ensures ReadMembers(WriteMembers(fields) + "}") == Some(fields)
  {
    if |fields| == 1 {
      LastMemberReads(fields[0]);
      assert fields == [fields[0]];
    } else {
      MembersText(fields);
      MemberReads(fields[0], WriteMembers(fields[1..]) + "}");
      MembersRead(fields[1..]);
      assert fields == [fields[0]] + fields[1..];
    }
  }

  lemma BraceFirst(members: string)
    ensures var s := "{" + members + "}"; s != "{}" ==> s[0] == '{' && s[1..] == members + "}"
  { }

  lemma MembersNotEmpty(fields: seq<Field>)
    requires |fields| > 0
    ensures WriteMembers(fields) != "" && WriteMembers(fields)[0] == '\"'
  { }

  /** Reading undoes writing for every non-empty list of fields. */
  lemma ReadWritten(fields: seq<Field>)
    requires |fields| > 0 && forall f :: f in fields ==> Writable(f)
    ensures ReadObject(WriteObject(fields)) == Some(fields)
  {
    var members := WriteMembers(fields);
    MembersRead(fields);
    MembersNotEmpty(fields);
    BraceFirst(members);
    assert |WriteObject(fields)| > 2;
  }

  ghost predicate Ascii(s: string) {
    forall i :: 0 <= i < |s| ==> s[i] as int < 128
  }

  predicate Plain(c: char) {
    0x20 <= c as int < 0x7f && c != '\"' && c != '\\'
  }

  lemma UnitIsAscii(n: int)
    requires 0 <= n < 0x10000
    ensures Ascii(Unit(n)) && |Unit(n)| == 6
  {
    HexRoundTrip(n / 4096);
    HexRoundTrip(n / 256 % 16);
    HexRoundTrip(n / 16 % 16);
    HexRoundTrip(n % 16);
  }

  lemma EscapeCharIsAscii(c: char)
    ensures Ascii(EscapeChar(c)) && |EscapeChar(c)| <= 12 && (Plain(c) ==> EscapeChar(c) == [c])
  {
    var n := c as int;
    if n < 0x10000 {
      UnitIsAscii(n);
    } else {
      UnitIsAscii(0xd800 + (n - 0x10000) / 0x400);
      UnitIsAscii(0xdc00 + (n - 0x10000) % 0x400);
    }
  }

  lemma {:induction false} EscapeIsAscii(s: string)
    ensures Ascii(Escape(s)) && |Escape(s)| <= 12 * |s|
    ensures (forall i :: 0 <= i < |s| ==> Plain(s[i])) ==> Escape(s) == s
  {
    if s != "" {
      EscapeIsAscii(s[1..]);
      EscapeCharIsAscii(s[0]);
      assert s == [s[0]] + s[1..];
    }
  }

  lemma JoinIsAscii(a: string, b: string)
    requires Ascii(a) && Ascii(b)
    ensures Ascii(a + b)
  { }

  lemma QuotedIsAscii(s: string)
    ensures Ascii(Quoted(s))
  {
    EscapeIsAscii(s);
    JoinIsAscii("\"", Escape(s));
    JoinIsAscii("\"" + Escape(s), "\"");
  }

  lemma FieldIsAscii(f: Field)
    requires f.1.Number? ==> Ascii(f.1.token)
    ensures Ascii(WriteField(f))
  {
    QuotedIsAscii(f.0);
    JoinIsAscii(Quoted(f.0), ":");
    if f.1.Text? { QuotedIsAscii(f.1.text); }
    JoinIsAscii(Quoted(f.0) + ":", WriteValue(f.1));
  }

  /** What is written is ASCII, so its bytes are its characters. */
  lemma {:induction false} MembersAreAscii(fields: seq<Field>)
    requires |fields| > 0 && forall f :: f in fields && f.1.Number? ==> Ascii(f.1.token)
    ensures Ascii(WriteMembers(fields))
  {
    FieldIsAscii(fields[0]);
    if |fields| > 1 {
      MembersAreAscii(fields[1..]);
      JoinIsAscii(WriteField(fields[0]), ",");
      JoinIsAscii(WriteField(fields[0]) + ",", WriteMembers(fields[1..]));
    }
  }
}
