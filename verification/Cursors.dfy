/**
 Opaque, self-describing cursors for paging. Library text forms of times, floating-point numbers and
 digests are parameters; `Faithful` is what the module needs of them, for the values they can write.
 */
module Cursors {
  import opened Wrappers
  import Base64
  import FlatJson

  type Time = int
  type Id = string

  const FINGERPRINT_LENGTH := 16
  const MAX_ID_LENGTH := 64
  const MAX_CURSOR_LENGTH := 512

  datatype Cursor =
    | Activity(time: Time, id: Id)
    | Rank(value: real, id: Id, fingerprint: string)
    | Similarity(value: real, id: Id, fingerprint: string)

  /**
   `isTime` and `isReal` are the values that have a text: the times of a calendar, the floats of a
   machine. `readTime` also says whether the text carried a time zone.
   */
  datatype TextForms = TextForms(
    isTime: Time -> bool, isReal: real -> bool,
    showTime: Time -> string, readTime: string -> Option<(Time, bool)>,
    showReal: real -> string, readReal: string -> Option<real>,
    digest: string -> string)

  ghost predicate Faithful(forms: TextForms) {
    && (forall t :: forms.isTime(t) ==> forms.readTime(forms.showTime(t)) == Some((t, true)))
    && (forall v :: forms.isReal(v) ==> forms.readReal(forms.showReal(v)) == Some(v))
    && (forall v :: forms.isReal(v) ==> FlatJson.PlainToken(forms.showReal(v)) && FlatJson.Ascii(forms.showReal(v)))
    && (forall q :: |forms.digest(q)| == 64)
  }

  /** The cursor's time or value has a text. */
  predicate HasText(isTime: Time -> bool, isReal: real -> bool, c: Cursor) {
    if c.Activity? then isTime(c.time) else isReal(c.value)
  }

  datatype Problem = NotACursor | FromABrowse | FromAnotherQuery | FromASearch

  function Fingerprint(forms: TextForms, q: string): string {
    var hex := forms.digest(q);
    if |hex| <= FINGERPRINT_LENGTH then hex else hex[..FINGERPRINT_LENGTH]
  }

  function FieldsOf(forms: TextForms, c: Cursor): seq<FlatJson.Field> {
    match c
    case Activity(time, id) => [("a", FlatJson.Text(forms.showTime(time))), ("i", FlatJson.Text(id))]
    case Rank(value, id, f) =>
      [("r", FlatJson.Number(forms.showReal(value))), ("i", FlatJson.Text(id)), ("qh", FlatJson.Text(f))]
    case Similarity(value, id, f) =>
      [("s", FlatJson.Number(forms.showReal(value))), ("i", FlatJson.Text(id)), ("qh", FlatJson.Text(f))]
  }

  /** JSON text is ASCII, so a byte is a character. */
  function ToBytes(s: string): seq<Base64.byte> {
    seq(|s|, i requires 0 <= i < |s| => if s[i] as int < 128 then s[i] as int else 0)
  }

  function FromBytes(b: seq<Base64.byte>): Option<string> {
    if forall i :: 0 <= i < |b| ==> b[i] < 128
    then Some(seq(|b|, i requires 0 <= i < |b| => b[i] as char))
    else None
  }

  function Encode(forms: TextForms, c: Cursor): string {
    Base64.Encode(ToBytes(FlatJson.WriteObject(FieldsOf(forms, c))))
  }

  /** The last field of that name, as a JSON reader keeps it. */
  function Lookup(fields: seq<FlatJson.Field>, name: string): Option<FlatJson.Value> {
    if fields == [] then None
    else if fields[|fields| - 1].0 == name then Some(fields[|fields| - 1].1)
    else Lookup(fields[..|fields| - 1], name)
  }

  function TextOf(v: FlatJson.Value): string {
    match v case Text(t) => t case Number(n) => n
  }

  function ReadScored(forms: TextForms, v: FlatJson.Value, qh: Option<FlatJson.Value>): Option<(real, string)> {
    match (forms.readReal(TextOf(v)), qh)
    case (Some(value), Some(f)) => Some((value, TextOf(f)))
    case _ => None
  }

  function CursorOfFields(forms: TextForms, fields: seq<FlatJson.Field>): Option<Cursor> {
    var id := Lookup(fields, "i");
    if id.None? || id.value.Number? || !(1 <= |id.value.text| <= MAX_ID_LENGTH) then None
    else
      var a, r, s, qh := Lookup(fields, "a"), Lookup(fields, "r"), Lookup(fields, "s"), Lookup(fields, "qh");
      if a.Some? then
        (match (if a.value.Text? then forms.readTime(a.value.text) else None)
         case Some((time, true)) => Some(Activity(time, id.value.text))
         case _ => None)
      else if r.Some? then
        (match ReadScored(forms, r.value, qh)
         case Some((value, f)) => Some(Rank(value, id.value.text, f))
         case None => None)
      else if s.Some? then
        (match ReadScored(forms, s.value, qh)
         case Some((value, f)) => Some(Similarity(value, id.value.text, f))
         case None => None)
      else None
  }

  function Decode(forms: TextForms, cursor: string): Option<Cursor> {
    match Base64.Decode(cursor)
    case None => None
    case Some(bytes) =>
      match FromBytes(bytes)
      case None => None
      case Some(text) =>
        match FlatJson.ReadObject(text)
        case None => None
        case Some(fields) => CursorOfFields(forms, fields)
  }

  /** An empty query counts as no query. */
  predicate Searching(q: Option<string>) {
    q.Some? && q.value != ""
  }

  /** Decodes a cursor and checks that it belongs to this request. */
  function Resolve(forms: TextForms, cursor: Option<string>, q: Option<string>): Result<Option<Cursor>, Problem> {
    match cursor
    case None => Ok(None)
    case Some(text) =>
      match Decode(forms, text)
      case None => Err(NotACursor)
      case Some(c) =>
        if Searching(q) then
          if c.Activity? then Err(FromABrowse)
          else if c.fingerprint != Fingerprint(forms, q.value) then Err(FromAnotherQuery)
          else Ok(Some(c))
        else if !c.Activity? then Err(FromASearch)
        else Ok(Some(c))
  }

  lemma BytesRoundTrip(s: string)
    requires FlatJson.Ascii(s)
    ensures FromBytes(ToBytes(s)) == Some(s)
  {
    var b := ToBytes(s);
    assert forall i :: 0 <= i < |s| ==> b[i] == s[i] as int;
    assert seq(|b|, i requires 0 <= i < |b| => b[i] as char) == s;
  }

  lemma LookupLast(fields: seq<FlatJson.Field>, f: FlatJson.Field, name: string)
    ensures Lookup(fields + [f], name) == if f.0 == name then Some(f.1) else Lookup(fields, name)
  {
    assert (fields + [f])[..|fields|] == fields;
  }

  lemma LookupTwo(f: FlatJson.Field, g: FlatJson.Field, name: string)
    ensures Lookup([f, g], name) == if g.0 == name then Some(g.1) else if f.0 == name then Some(f.1) else None
  {
    LookupLast([], f, name);
    LookupLast([f], g, name);
    assert [] + [f] == [f] && [f] + [g] == [f, g];
  }

  lemma LookupThree(f: FlatJson.Field, g: FlatJson.Field, h: FlatJson.Field, name: string)
    ensures Lookup([f, g, h], name) ==
            if h.0 == name then Some(h.1)
            else if g.0 == name then Some(g.1)
            else if f.0 == name then Some(f.1) else None
  {
    LookupTwo(f, g, name);
    LookupLast([f, g], h, name);
    assert [f, g] + [h] == [f, g, h];
  }

  lemma FieldsRead(forms: TextForms, c: Cursor)
    requires Faithful(forms) && HasText(forms.isTime, forms.isReal, c) && 1 <= |c.id| <= MAX_ID_LENGTH
    ensures CursorOfFields(forms, FieldsOf(forms, c)) == Some(c)
  {
    var fields := FieldsOf(forms, c);
    if c.Activity? {
      LookupTwo(fields[0], fields[1], "i");
      LookupTwo(fields[0], fields[1], "a");
    } else {
      LookupThree(fields[0], fields[1], fields[2], "i");
      LookupThree(fields[0], fields[1], fields[2], "a");
      LookupThree(fields[0], fields[1], fields[2], "r");
      LookupThree(fields[0], fields[1], fields[2], "s");
      LookupThree(fields[0], fields[1], fields[2], "qh");
    }
  }

  lemma FieldsAreWritable(forms: TextForms, c: Cursor)
    requires Faithful(forms) && HasText(forms.isTime, forms.isReal, c)
    ensures forall f <- FieldsOf(forms, c) :: FlatJson.Writable(f) && (f.1.Number? ==> FlatJson.Ascii(f.1.token))
  { }

  lemma ObjectIsAscii(fields: seq<FlatJson.Field>)
    requires |fields| > 0 && forall f <- fields :: f.1.Number? ==> FlatJson.Ascii(f.1.token)
    ensures FlatJson.Ascii(FlatJson.WriteObject(fields))
  {
    FlatJson.MembersAreAscii(fields);
    FlatJson.JoinIsAscii("{", FlatJson.WriteMembers(fields));
    FlatJson.JoinIsAscii("{" + FlatJson.WriteMembers(fields), "}");
  }

  lemma TextDecodes(forms: TextForms, text: string)
    requires FlatJson.Ascii(text)
    ensures Decode(forms, Base64.Encode(ToBytes(text))) ==
            match FlatJson.ReadObject(text) { case None => None case Some(fields) => CursorOfFields(forms, fields) }
  {
    BytesRoundTrip(text);
    Base64.DecodeEncode(ToBytes(text));
  }

  /** Decoding undoes encoding: same mode, same value, same id, through base64 and JSON escaping. */
  lemma DecodeEncode(forms: TextForms, c: Cursor)
    requires Faithful(forms) && HasText(forms.isTime, forms.isReal, c) && 1 <= |c.id| <= MAX_ID_LENGTH
    ensures Decode(forms, Encode(forms, c)) == Some(c)
  {
    var fields := FieldsOf(forms, c);
    FieldsAreWritable(forms, c);
    ObjectIsAscii(fields);
    TextDecodes(forms, FlatJson.WriteObject(fields));
    FlatJson.ReadWritten(fields);
    FieldsRead(forms, c);
  }

  /** A cursor resumes exactly the kind of request, and the query, it was made for; all others refuse it. */
  lemma ResolveEncoded(forms: TextForms, c: Cursor, q: Option<string>)
    requires Faithful(forms) && HasText(forms.isTime, forms.isReal, c) && 1 <= |c.id| <= MAX_ID_LENGTH
    ensures Resolve(forms, Some(Encode(forms, c)), q) ==
            if c.Activity? then (if Searching(q) then Err(FromABrowse) else Ok(Some(c)))
            else if !Searching(q) then Err(FromASearch)
            else if c.fingerprint == Fingerprint(forms, q.value) then Ok(Some(c))
            else Err(FromAnotherQuery)
  {
    DecodeEncode(forms, c);
  }

  /**
   A search cursor is for its own query: another one takes it exactly if their digests start with
   the same 16 characters.
   */
  lemma QueriesToldApart(forms: TextForms, c: Cursor, q: string, other: string)
    requires Faithful(forms) && HasText(forms.isTime, forms.isReal, c) && 1 <= |c.id| <= MAX_ID_LENGTH
    requires !c.Activity? && c.fingerprint == Fingerprint(forms, q) && other != ""
    ensures Resolve(forms, Some(Encode(forms, c)), Some(other)) ==
            if forms.digest(other)[..16] == forms.digest(q)[..16] then Ok(Some(c)) else Err(FromAnotherQuery)
  {
    assert |forms.digest(q)| == 64 && |forms.digest(other)| == 64;
    ResolveEncoded(forms, c, Some(other));
  }

  lemma MembersLength(f: FlatJson.Field, rest: seq<FlatJson.Field>)
    ensures |FlatJson.WriteMembers([f] + rest)| ==
            |FlatJson.WriteField(f)| + if rest == [] then 0 else 1 + |FlatJson.WriteMembers(rest)|
  {
    assert ([f] + rest)[1..] == rest;
  }

  lemma TwoFieldsLength(f: FlatJson.Field, g: FlatJson.Field)
    ensures |FlatJson.WriteObject([f, g])| == |FlatJson.WriteField(f)| + |FlatJson.WriteField(g)| + 3
  {
    assert [g] + [] == [g] && [f] + [g] == [f, g];
    MembersLength(g, []);
    MembersLength(f, [g]);
  }

  lemma ThreeFieldsLength(f: FlatJson.Field, g: FlatJson.Field, h: FlatJson.Field)
    ensures |FlatJson.WriteObject([f, g, h])| ==
            |FlatJson.WriteField(f)| + |FlatJson.WriteField(g)| + |FlatJson.WriteField(h)| + 4
  {
    assert [h] + [] == [h] && [g] + [h] == [g, h] && [f] + [g, h] == [f, g, h];
    MembersLength(h, []);
    MembersLength(g, [h]);
    MembersLength(f, [g, h]);
  }

  lemma FieldLength(name: string, v: FlatJson.Value)
    requires forall i :: 0 <= i < |name| ==> FlatJson.Plain(name[i])
    ensures |FlatJson.WriteField((name, v))| ==
            |name| + if v.Text? then |FlatJson.Escape(v.text)| + 5 else |v.token| + 3
  {
    FlatJson.EscapeIsAscii(name);
  }

  lemma ObjectFits(forms: TextForms, c: Cursor)
    requires |FlatJson.Escape(c.id)| <= MAX_ID_LENGTH
    requires c.Activity? ==> |FlatJson.Escape(forms.showTime(c.time))| <= 64
    requires !c.Activity? ==> |forms.showReal(c.value)| <= 64 && |c.fingerprint| <= FINGERPRINT_LENGTH
    ensures |FlatJson.WriteObject(FieldsOf(forms, c))| <= 383
  {
    FieldLength("i", FlatJson.Text(c.id));
    if c.Activity? {
      FieldLength("a", FlatJson.Text(forms.showTime(c.time)));
      TwoFieldsLength(("a", FlatJson.Text(forms.showTime(c.time))), ("i", FlatJson.Text(c.id)));
    } else {
      var name := if c.Rank? then "r" else "s";
      FieldLength(name, FlatJson.Number(forms.showReal(c.value)));
      FieldLength("qh", FlatJson.Text(c.fingerprint));
      FlatJson.EscapeIsAscii(c.fingerprint);
      ThreeFieldsLength((name, FlatJson.Number(forms.showReal(c.value))), ("i", FlatJson.Text(c.id)),
                        ("qh", FlatJson.Text(c.fingerprint)));
    }
  }

  /** A cursor's text never exceeds the limit the search route puts on it, for the ids the board makes. */
  lemma CursorFits(forms: TextForms, c: Cursor)
    requires |FlatJson.Escape(c.id)| <= MAX_ID_LENGTH
    requires c.Activity? ==> |FlatJson.Escape(forms.showTime(c.time))| <= 64
    requires !c.Activity? ==> |forms.showReal(c.value)| <= 64 && |c.fingerprint| <= FINGERPRINT_LENGTH
    ensures |Encode(forms, c)| <= MAX_CURSOR_LENGTH
  {
    ObjectFits(forms, c);
    Base64.DecodeEncode(ToBytes(FlatJson.WriteObject(FieldsOf(forms, c))));
  }

  /** What the search route uses of this module: writing a cursor, taking one back, and the fingerprint. */
  datatype Codec = Codec(
    isTime: Time -> bool, isReal: real -> bool,
    encode: Cursor -> string,
    resolve: (Option<string>, Option<string>) -> Result<Option<Cursor>, Problem>,
    fingerprint: string -> string)

  function CodecOf(forms: TextForms): Codec {
    Codec(forms.isTime, forms.isReal, c => Encode(forms, c), (text, q) => Resolve(forms, text, q),
          q => Fingerprint(forms, q))
  }

  /** Ids short and plain enough for a cursor: the board makes UUIDs. */
  ghost predicate CursorId(id: Id) {
    1 <= |id| <= MAX_ID_LENGTH && |FlatJson.Escape(id)| <= MAX_ID_LENGTH
  }

  /** The verdict on a cursor: it resumes the kind of request and the query it was made for. */
  function Verdict(codec: Codec, c: Cursor, q: Option<string>): Result<Option<Cursor>, Problem> {
    if c.Activity? then (if Searching(q) then Err(FromABrowse) else Ok(Some(c)))
    else if !Searching(q) then Err(FromASearch)
    else if c.fingerprint == codec.fingerprint(q.value) then Ok(Some(c))
    else Err(FromAnotherQuery)
  }

  /** A cursor the board can make: a plain id, a fingerprint, and a value that has a text. */
  ghost predicate Carries(codec: Codec, c: Cursor) {
    CursorId(c.id) && HasText(codec.isTime, codec.isReal, c) && (!c.Activity? ==> |c.fingerprint| <= FINGERPRINT_LENGTH)
  }

  /** Its text is short enough, and gets the right verdict from every request. */
  ghost predicate Survives(codec: Codec, c: Cursor, q: Option<string>) {
    codec.resolve(Some(codec.encode(c)), q) == Verdict(codec, c, q) && |codec.encode(c)| <= MAX_CURSOR_LENGTH
  }

  ghost predicate Sound(codec: Codec) {
    && (forall q :: codec.resolve(None, q) == Ok(None))
    && (forall q :: |codec.fingerprint(q)| <= FINGERPRINT_LENGTH)
    && (forall c: Cursor, q :: Carries(codec, c) ==> Survives(codec, c, q))
  }

  ghost predicate Compact(forms: TextForms) {
    && Faithful(forms)
    && (forall t :: forms.isTime(t) ==> |FlatJson.Escape(forms.showTime(t))| <= 64)
    && (forall v :: forms.isReal(v) ==> |forms.showReal(v)| <= 64)
  }

  /** With faithful, compact text forms the codec does all the search route relies on. */
  lemma CodecIsSound(forms: TextForms)
    requires Compact(forms)
    ensures Sound(CodecOf(forms))
  {
    var codec := CodecOf(forms);
    forall c: Cursor, q | Carries(codec, c) ensures Survives(codec, c, q) {
      CursorSurvives(forms, c, q);
    }
  }

  lemma CursorSurvives(forms: TextForms, c: Cursor, q: Option<string>)
    requires Compact(forms) && Carries(CodecOf(forms), c)
    ensures Survives(CodecOf(forms), c, q)
  {
    ResolveEncoded(forms, c, q);
    CursorFits(forms, c);
  }
}
