/** When a key is its own key: the normaliser read back on what it printed. */
module EndpointKeys {
  import opened Wrappers
  import opened Orders
  import opened Texts
  import opened Queries
  import opened Endpoint
  import Listings

  /** A host that reads back from a key: an address if it holds a colon, and otherwise no stray bracket. */
  predicate Readable(ip6: string -> bool, host: string) {
    if ':' in host then ']' !in host && ip6(host) else '[' !in host && ']' !in host
  }

  lemma DigitsLack(text: string, c: char)
    requires !IsDigit(c) && IsDigits(text)
    ensures c !in text
  { }

  lemma BareIsOk(ip6: string -> bool, host: string, text: string)
    requires Readable(ip6, host) && ':' !in host && IsDigits(text)
    ensures BracketsOk(ip6, host + WithPort(text)) && '[' !in host + WithPort(text)
  {
    DigitsLack(text, '[');
    DigitsLack(text, ']');
  }

  lemma BracketedIsOk(ip6: string -> bool, host: string, text: string)
    requires ']' !in host
    ensures BracketsOk(ip6, "[" + host + "]" + WithPort(text)) <==> ip6(host)
  {
    var rest := host + "]" + WithPort(text);
    var a := "[" + rest;
    assert "[" + host + "]" + WithPort(text) == a;
    assert a[0] == '[' && a[1..] == rest && rest[|host|] == ']' && ']' in rest;
    FindIn("", '[', rest);
    assert "" + "[" + rest == a;
    FindIn(host, ']', WithPort(text));
    assert a[0..] == a && rest[..|host|] == host;
  }

  lemma InfoReads(host: string, text: string)
    requires '@' !in host && ']' !in host && ('[' !in host || ':' in host) && IsDigits(text)
    ensures HostInfo(Bracketed(host) + WithPort(text)) == (host, text)
  {
    DigitsLack(text, '@');
    DigitsLack(text, '[');
    assert '@' !in Bracketed(host) + WithPort(text);
    if ':' in host {
      BracketedInfoReads(host, text);
    } else {
      BarePartitions(host, text);
      assert '[' !in host + WithPort(text);
    }
  }

  lemma AfterBracket(rest: string)
    ensures '[' in "[" + rest && Partition("[" + rest, '[').1 == rest
  {
    var a := "[" + rest;
    assert a[0] == '[' && Find(a, '[') == 0;
    assert a[1..] == rest;
  }

  lemma AfterColon(text: string)
    ensures Partition(WithPort(text), ':').1 == text
  {
    var w := WithPort(text);
    if text == "" {
      assert w == "";
    } else {
      assert w[0] == ':' && Find(w, ':') == 0;
      assert w[1..] == text;
    }
  }

  lemma InnerReads(host: string, text: string)
    requires ']' !in host
    ensures BracketInfo(host + "]" + WithPort(text)) == (host, text)
  {
    PartitionAt(host, ']', WithPort(text));
    AfterColon(text);
  }

  lemma BracketedInfoReads(host: string, text: string)
    requires ']' !in host
    ensures var a := "[" + host + "]" + WithPort(text); '[' in a && BracketInfo(Partition(a, '[').1) == (host, text)
  {
    Bracketing(host, WithPort(text));
    AfterBracket(host + "]" + WithPort(text));
    InnerReads(host, text);
  }

  /** What a URL made of a host, a port, a path and a query reads as. */
  lemma JoinedReads(ip6: string -> bool, scheme: string, host: string, text: string, p: string, q: string)
    requires IsScheme(scheme) && SchemeShape(scheme) && Readable(ip6, host) && AllInAuthority(host)
    requires IsDigits(text)
    requires p != "" ==> p[0] == '/'
    requires forall i :: 0 <= i < |p| ==> p[i] != '?' && p[i] != '#' && !IsUnsafe(p[i])
    requires forall c <- q :: c != '#' && !IsUnsafe(c)
    ensures var a := Bracketed(host) + WithPort(text);
            Read(ip6, Join(scheme, a, p, q)) == ReadService(Split5(scheme, a, p, q)) && HostInfo(a) == (host, text)
  {
    var a := Bracketed(host) + WithPort(text);
    assert '@' !in host;
    if ':' in host { BracketedIsOk(ip6, host, text); } else { BareIsOk(ip6, host, text); }
    InfoReads(host, text);
    JoinedAuthority(host, text);
    SplitsBack(ip6, scheme, a, p, q);
  }

  lemma JoinedAuthority(host: string, text: string)
    requires AllInAuthority(host) && IsDigits(text)
    ensures AllInAuthority(Bracketed(host) + WithPort(text))
  {
    assert AllInAuthority(WithPort(text)) && AllInAuthority(Bracketed(host));
  }

  lemma HostStays(host: string)
    requires HostShape(host)
    ensures RStrip(Listings.Lower(host), IsDot) == host && AllInAuthority(host)
  {
    assert Listings.Lower(host) == host;
  }

  lemma PathStays(path: string)
    requires PathShape(path)
    ensures CleanPath(path) == path
  { }

  lemma PortReads(s: Service)
    requires WellRead(s)
    ensures ReadPort(PortText(s)).Ok?
    ensures (if ReadPort(PortText(s)).value.Some? then ReadPort(PortText(s)).value else DefaultPort(s.scheme)) == s.port
  {
    if s.port.Some? { NumberOfDecimal(s.port.value); }
  }

  /** A key reads as the service it was printed from, its pairs now in order. */
  lemma KeyReads(ip6: string -> bool, s: Service)
    requires WellRead(s) && IsScheme(s.scheme) && Readable(ip6, s.host)
    ensures Read(ip6, Print(s)) == Ok(s.(pairs := Sort(s.pairs, PairLeq)))
  {
    HostStays(s.host);
    PathStays(s.path);
    QueryTextChars(s);
    JoinedReads(ip6, s.scheme, s.host, PortText(s), s.path, QueryText(s));
    AuthorityIs(s);
    PortReads(s);
    ParseEncoded(Sort(s.pairs, PairLeq));
    assert Print(s) == Join(s.scheme, Authority(s), s.path, QueryText(s));
  }

  lemma PrintForgetsOrder(s: Service)
    ensures Print(s.(pairs := Sort(s.pairs, PairLeq))) == Print(s)
  {
    PairLeqIsTotalOrder();
    SortSameIffSameElements(s.pairs, Sort(s.pairs, PairLeq), PairLeq);
  }

  lemma {:induction false} RStripTail(pre: string, s: string, drop: char -> bool)
    requires s != "" && !drop(s[0])
    ensures RStrip(s, drop) != "" && RStrip(pre + s, drop) == pre + RStrip(s, drop)
  {
    var whole := pre + s;
    assert whole[|whole| - 1] == s[|s| - 1];
    if drop(s[|s| - 1]) {
      assert whole[..|whole| - 1] == pre + s[..|s| - 1];
      RStripTail(pre, s[..|s| - 1], drop);
    }
  }

  /** Stripping a URL that starts with its scheme strips its end. */
  lemma JoinStrips(scheme: string, a: string, p: string, q: string)
    requires IsScheme(scheme)
    ensures var u := Join(scheme, a, p, q);
            u != "" && Strip(u) == RStrip(u, IsSpace) && (!IsSpace(u[|u| - 1]) ==> Strip(u) == u)
  {
    var u := Join(scheme, a, p, q);
    assert u[0] == scheme[0];
    assert LStrip(u, IsSpace) == u;
  }

  lemma JoinPath(scheme: string, a: string, path: string)
    ensures Join(scheme, a, path, "") == (scheme + "://" + a) + path
  { }

  lemma PathStrips(scheme: string, a: string, path: string)
    requires IsScheme(scheme) && path != "" && path[0] == '/'
    ensures Strip(Join(scheme, a, path, "")) == Join(scheme, a, RStrip(path, IsSpace), "")
    ensures RStrip(path, IsSpace) != ""
  {
    var start := scheme + "://" + a;
    JoinStrips(scheme, a, path, "");
    RStripTail(start, path, IsSpace);
    JoinPath(scheme, a, path);
    JoinPath(scheme, a, RStrip(path, IsSpace));
  }

  lemma JoinHost(scheme: string, host: string)
    ensures Join(scheme, host, "", "") == (scheme + ":/") + ("/" + host)
  { }

  /** How much of a host is left when the space at its end is stripped. */
  lemma SlashStrips(host: string) returns (n: nat)
    requires host != "" && IsSpace(host[|host| - 1])
    ensures n < |host| && RStrip("/" + host, IsSpace) == "/" + host[..n]
  {
    var slashed := "/" + host;
    RStripTail("", slashed, IsSpace);
    n := |RStrip(slashed, IsSpace)| - 1;
    assert slashed[..n + 1] == "/" + host[..n];
  }

  lemma HostStrips(scheme: string, host: string) returns (n: nat)
    requires IsScheme(scheme) && host != "" && IsSpace(host[|host| - 1])
    ensures n < |host| && Strip(Join(scheme, host, "", "")) == Join(scheme, host[..n], "", "")
    ensures RStrip("/" + host, IsSpace) == "/" + host[..n]
  {
    n := SlashStrips(host);
    JoinStrips(scheme, host, "", "");
    JoinHost(scheme, host);
    JoinHost(scheme, host[..n]);
    RStripTail(scheme + ":/", "/" + host, IsSpace);
  }

  lemma PrintLength(s: Service)
    requires s.pairs == []
    ensures |Print(s)| == |s.scheme| + 3 + |Authority(s)| + |s.path|
  {
    PrintIs(s);
  }

  lemma StrippedPathIsPlain(path: string)
    requires PathShape(path) && path != ""
    ensures PlainPath(RStrip(path, IsSpace))
  {
    RStripTail("", path, IsSpace);
  }

  /** Cutting trailing space off a path gives a shorter key. */
  lemma PathSpaceMoves(ip6: string -> bool, s: Service)
    requires WellRead(s) && IsScheme(s.scheme) && Readable(ip6, s.host) && s.pairs == []
    requires s.path != "" && IsSpace(s.path[|s.path| - 1])
    ensures Normalize(ip6, Print(s)) != Ok(Print(s))
  {
    var p := RStrip(s.path, IsSpace);
    PrintIs(s);
    PathStrips(s.scheme, Authority(s), s.path);
    StrippedPathIsPlain(s.path);
    PathReads(ip6, s, p);
    CleanPathShape(p);
    ShorterPath(s, CleanPath(p));
    NormalizePrints(ip6, Print(s), s.(path := CleanPath(p)));
  }

  lemma ShorterPath(s: Service, p: string)
    requires s.pairs == [] && |p| < |s.path|
    ensures Print(s.(path := p)) != Print(s)
  {
    PrintLength(s);
    PrintLength(s.(path := p));
  }

  lemma HostMovesTo(ip6: string -> bool, scheme: string, host: string)
    requires IsScheme(scheme) && SchemeShape(scheme) && AllInAuthority(host) && '[' !in host && ']' !in host
    requires ':' !in host
    ensures Read(ip6, Join(scheme, host, "", "")) ==
            Ok(Service(scheme, RStrip(Listings.Lower(host), IsDot), DefaultPort(scheme), "", []))
    ensures ':' !in RStrip(Listings.Lower(host), IsDot)
  {
    JoinedReads(ip6, scheme, host, "", "", "");
    assert host == Bracketed(host) + WithPort("");
    HostAloneReads(Split5(scheme, host, "", ""), host);
    LowerKeeps(host, ':');
  }

  lemma NothingToClean()
    ensures CleanPath("") == "" && ParseQuery("") == [] && ReadPort("") == Ok(None)
  { }

  lemma HostAloneReads(parts: Split5, host: string)
    requires HostInfo(parts.netloc) == (host, "") && parts.path == "" && parts.query == ""
    ensures ReadService(parts) ==
            Ok(Service(parts.scheme, RStrip(Listings.Lower(host), IsDot), DefaultPort(parts.scheme), "", []))
  {
    NothingToClean();
  }

  lemma PrefixLacks(s: string, n: nat, c: char)
    requires n <= |s| && c !in s
    ensures c !in s[..n]
  { }

  lemma BareKeyLength(s: Service)
    requires s.pairs == [] && s.path == "" && ':' !in s.host && PortText(s) == ""
    ensures |Print(s)| == |s.scheme| + 3 + |s.host| && Print(s) == Join(s.scheme, s.host, "", "")
  {
    AuthorityIs(s);
    PrintIs(s);
    assert Authority(s) == s.host;
    PrintLength(s);
  }

  lemma HostMoves(ip6: string -> bool, scheme: string, host: string, n: nat)
    requires IsScheme(scheme) && SchemeShape(scheme) && AllInAuthority(host) && '[' !in host && ']' !in host
    requires ':' !in host
    requires n < |host|
    ensures Read(ip6, Join(scheme, host[..n], "", "")).Ok?
    ensures |Print(Read(ip6, Join(scheme, host[..n], "", "")).value)| < |scheme| + 3 + |host|
  {
    var h := host[..n];
    PrefixLacks(host, n, '[');
    PrefixLacks(host, n, ']');
    PrefixLacks(host, n, ':');
    assert AllInAuthority(h);
    HostMovesTo(ip6, scheme, h);
    BareKeyLength(Service(scheme, RStrip(Listings.Lower(h), IsDot), DefaultPort(scheme), "", []));
  }

  lemma SpacedHostReads(ip6: string -> bool, scheme: string, host: string)
    requires IsScheme(scheme) && SchemeShape(scheme) && AllInAuthority(host) && '[' !in host && ']' !in host
    requires ':' !in host
    requires host != "" && IsSpace(host[|host| - 1])
    ensures var read := Read(ip6, Strip(Join(scheme, host, "", "")));
            read.Ok? && |Print(read.value)| < |scheme| + 3 + |host|
  {
    var n := HostStrips(scheme, host);
    HostMoves(ip6, scheme, host, n);
  }

  /** So does cutting it off a host with nothing after it. */
  lemma HostSpaceMoves(ip6: string -> bool, s: Service)
    requires WellRead(s) && IsScheme(s.scheme) && Readable(ip6, s.host) && s.pairs == []
    requires s.path == "" && ':' !in s.host && PortText(s) == "" && s.host != "" && IsSpace(s.host[|s.host| - 1])
    ensures Normalize(ip6, Print(s)) != Ok(Print(s))
  {
    BareKeyLength(s);
    HostStays(s.host);
    SpacedHostReads(ip6, s.scheme, s.host);
    NormalizePrints(ip6, Print(s), Read(ip6, Strip(Print(s))).value);
  }

  lemma KeyStrips(s: Service)
    requires IsScheme(s.scheme) && !EndsInSpace(Print(s))
    ensures Strip(Print(s)) == Print(s)
  {
    PrintIs(s);
    JoinStrips(s.scheme, Authority(s), s.path, QueryText(s));
  }

  lemma KeyStays(ip6: string -> bool, s: Service)
    requires WellRead(s) && IsScheme(s.scheme) && Readable(ip6, s.host) && !EndsInSpace(Print(s))
    ensures Normalize(ip6, Print(s)) == Ok(Print(s))
  {
    KeyStrips(s);
    KeyReads(ip6, s);
    PrintForgetsOrder(s);
    NormalizePrints(ip6, Print(s), s.(pairs := Sort(s.pairs, PairLeq)));
  }

  lemma SpaceMoves(ip6: string -> bool, s: Service)
    requires WellRead(s) && IsScheme(s.scheme) && Readable(ip6, s.host) && EndsInSpace(Print(s))
    ensures Normalize(ip6, Print(s)) != Ok(Print(s))
  {
    SpaceIsLast(s);
    if s.path != "" { PathSpaceMoves(ip6, s); } else { HostSpaceMoves(ip6, s); }
  }

  lemma ServiceKeyFixedIff(ip6: string -> bool, s: Service)
    requires WellRead(s) && IsScheme(s.scheme) && Readable(ip6, s.host)
    ensures Normalize(ip6, Print(s)) == Ok(Print(s)) <==> !EndsInSpace(Print(s))
  {
    if EndsInSpace(Print(s)) { SpaceMoves(ip6, s); } else { KeyStays(ip6, s); }
  }

  lemma QueryEndsKey(s: Service)
    requires QueryText(s) != ""
    ensures !IsSpace(Print(s)[|Print(s)| - 1])
  {
    var key, q := Print(s), QueryText(s);
    PrintIs(s);
    QueryTextChars(s);
    assert key[|key| - 1] == q[|q| - 1] && q[|q| - 1] in q;
  }

  lemma NoQueryNoPairs(s: Service)
    requires QueryText(s) == ""
    ensures s.pairs == []
  {
    ParseEncoded(Sort(s.pairs, PairLeq));
    assert |multiset(s.pairs)| == |multiset(Sort(s.pairs, PairLeq))|;
  }

  /** There is no query, and the cleaned path, or the host with nothing printed after it, ends in white space. */
  predicate SpaceAtEnd(s: Service) {
    && s.pairs == []
    && if s.path != "" then IsSpace(s.path[|s.path| - 1])
       else ':' !in s.host && PortText(s) == "" && s.host != "" && IsSpace(s.host[|s.host| - 1])
  }

  /** Where a key can end in space: its path, or its host with nothing after it. */
  lemma SpaceIsLast(s: Service)
    requires WellRead(s) && IsSpace(Print(s)[|Print(s)| - 1])
    ensures s.pairs == []
    ensures s.path != "" ==> IsSpace(s.path[|s.path| - 1])
    ensures s.path == "" ==> ':' !in s.host && PortText(s) == "" && s.host != "" && IsSpace(s.host[|s.host| - 1])
  {
    if QueryText(s) != "" {
      QueryEndsKey(s);
    } else {
      NoQueryNoPairs(s);
      PrintIs(s);
      AuthorityIs(s);
      var key, a := Print(s), Authority(s);
      assert key == s.scheme + "://" + a + s.path;
      assert s.path == "" && a != "" ==> key[|key| - 1] == a[|a| - 1];
      assert PortText(s) != "" ==> IsDigit(a[|a| - 1]);
    }
  }

  lemma NormalizePrints(ip6: string -> bool, url: string, s: Service)
    requires Read(ip6, Strip(url)) == Ok(s)
    ensures Normalize(ip6, url) == Ok(Print(s))
  { }

  lemma SchemeIsScheme(s: Service)
    requires WellRead(s) && s.scheme != ""
    ensures IsScheme(s.scheme)
  { }

  predicate EndsInSpace(key: string) {
    key != "" && IsSpace(key[|key| - 1])
  }

  lemma SchemeIsKept(parts: Split5)
    requires ReadService(parts).Ok?
    ensures ReadService(parts).value.scheme == parts.scheme
  { }

  // ---- Keys that cannot be read back ----

  lemma StrayBracket(ip6: string -> bool, host: string, text: string)
    requires ('[' in host) != (']' in host) && IsDigits(text)
    ensures !BracketsOk(ip6, host + WithPort(text))
  {
    DigitsLack(text, '[');
    DigitsLack(text, ']');
    var w := WithPort(text);
    assert '[' !in w && ']' !in w;
  }

  lemma UnreadableBrackets(ip6: string -> bool, host: string, text: string)
    requires HostShape(host) && !Readable(ip6, host) && IsDigits(text)
    ensures !BracketsOk(ip6, Bracketed(host) + WithPort(text))
  {
    if ':' in host { BracketedIsOk(ip6, host, text); } else { StrayBracket(ip6, host, text); }
  }

  lemma {:induction false} RStripKeeps(s: string, drop: char -> bool, c: char)
    requires !drop(c)
    ensures c in RStrip(s, drop) <==> c in s
  {
    if |s| != 0 && drop(s[|s| - 1]) {
      assert s == s[..|s| - 1] + [s[|s| - 1]];
      RStripKeeps(s[..|s| - 1], drop, c);
    }
  }

  lemma UnreadableJoin(ip6: string -> bool, scheme: string, host: string, text: string, p: string, q: string)
    requires IsScheme(scheme) && SchemeShape(scheme) && AllInAuthority(host) && IsDigits(text)
    requires p != "" ==> p[0] == '/'
    requires forall i :: 0 <= i < |p| ==> p[i] != '?' && p[i] != '#' && !IsUnsafe(p[i])
    requires forall c <- q :: c != '#' && !IsUnsafe(c)
    requires !BracketsOk(ip6, Bracketed(host) + WithPort(text))
    ensures Read(ip6, Join(scheme, Bracketed(host) + WithPort(text), p, q)) == Err(BadUrl)
  {
    JoinedAuthority(host, text);
    SplitsBack(ip6, scheme, Bracketed(host) + WithPort(text), p, q);
  }

  /** A host cut short of its spaces has the brackets it had. */
  lemma CutHostUnreadable(ip6: string -> bool, host: string, n: nat)
    requires HostShape(host) && !Readable(ip6, host) && ':' !in host && n <= |host|
    requires RStrip("/" + host, IsSpace) == "/" + host[..n]
    ensures AllInAuthority(host[..n]) && ':' !in host[..n] && !BracketsOk(ip6, host[..n])
  {
    RStripKeeps("/" + host, IsSpace, '[');
    RStripKeeps("/" + host, IsSpace, ']');
    PrefixLacks(host, n, ':');
  }

  lemma SpacedPathUnreadable(ip6: string -> bool, s: Service)
    requires WellRead(s) && IsScheme(s.scheme) && !Readable(ip6, s.host) && s.path != ""
    ensures Read(ip6, Strip(Join(s.scheme, Authority(s), s.path, ""))) == Err(BadUrl)
  {
    AuthorityIs(s);
    HostStays(s.host);
    UnreadableBrackets(ip6, s.host, PortText(s));
    PathStrips(s.scheme, Authority(s), s.path);
    StrippedPathIsPlain(s.path);
    UnreadableJoin(ip6, s.scheme, s.host, PortText(s), RStrip(s.path, IsSpace), "");
  }

  lemma SpacedHostUnreadable(ip6: string -> bool, scheme: string, host: string)
    requires IsScheme(scheme) && SchemeShape(scheme) && HostShape(host) && !Readable(ip6, host)
    requires ':' !in host && host != "" && IsSpace(host[|host| - 1])
    ensures Read(ip6, Strip(Join(scheme, host, "", ""))) == Err(BadUrl)
  {
    var n := HostStrips(scheme, host);
    CutHostUnreadable(ip6, host, n);
    assert host[..n] == Bracketed(host[..n]) + WithPort("");
    UnreadableJoin(ip6, scheme, host[..n], "", "", "");
  }

  lemma SpacedUnreadable(ip6: string -> bool, s: Service)
    requires WellRead(s) && IsScheme(s.scheme) && !Readable(ip6, s.host) && EndsInSpace(Print(s))
    ensures Read(ip6, Strip(Print(s))) == Err(BadUrl)
  {
    SpaceIsLast(s);
    PrintIs(s);
    if s.path != "" {
      SpacedPathUnreadable(ip6, s);
    } else {
      BareKeyLength(s);
      SpacedHostUnreadable(ip6, s.scheme, s.host);
    }
  }

  lemma KeyIsUnreadable(ip6: string -> bool, s: Service)
    requires WellRead(s) && IsScheme(s.scheme) && !Readable(ip6, s.host)
    ensures Read(ip6, Print(s)) == Err(BadUrl)
  {
    PrintIs(s);
    AuthorityIs(s);
    HostStays(s.host);
    QueryTextChars(s);
    UnreadableBrackets(ip6, s.host, PortText(s));
    UnreadableJoin(ip6, s.scheme, s.host, PortText(s), s.path, QueryText(s));
  }

  lemma UnreadableMoves(ip6: string -> bool, s: Service)
    requires WellRead(s) && IsScheme(s.scheme) && !Readable(ip6, s.host)
    ensures Normalize(ip6, Print(s)) == Err(BadUrl)
  {
    if EndsInSpace(Print(s)) {
      SpacedUnreadable(ip6, s);
    } else {
      KeyStrips(s);
      KeyIsUnreadable(ip6, s);
    }
  }

  // ---- Keys without a scheme ----

  lemma ColonSlashSlash(u: string)
    requires |u| >= 3 && u[..3] == "://"
    ensures u[0] == ':' && u[1] == '/' && u[2] == '/'
  {
    assert u[0] == u[..3][0] && u[1] == u[..3][1] && u[2] == u[..3][2];
  }

  lemma NoSchemeFound(ip6: string -> bool, u: string)
    requires u != "" && u[0] == ':' && forall c <- u :: !IsUnsafe(c)
    ensures UrlSplit(ip6, u) == SplitRest(ip6, "", u)
  {
    assert LStrip(u, IsC0OrSpace) == u;
    RemoveNone(u, IsUnsafe);
    assert Find(u, ':') == 0 && !IsScheme(u[..0]);
  }

  lemma NoAuthorityFound(ip6: string -> bool, u: string)
    requires u != "" && u[0] == ':'
    ensures SplitRest(ip6, "", u) == Ok(SplitPath("", "", u))
  {
    assert |u| >= 2 ==> u[..2][0] == ':';
    assert "//"[0] == '/';
  }

  lemma PathWithoutFragment(u: string)
    requires '#' !in u
    ensures SplitPath("", "", u).path == u[..Find(u, '?')]
  {
    FindNone(u, '#');
    assert u[..|u|] == u;
  }

  /** Without a scheme a key starts "://", which reads as a path. */
  lemma SchemelessReads(ip6: string -> bool, u: string)
    requires |u| >= 3 && u[..3] == "://" && forall c <- u :: !IsUnsafe(c) && c != '#'
    ensures UrlSplit(ip6, u).Ok? && UrlSplit(ip6, u).value.netloc == "" && UrlSplit(ip6, u).value.scheme == ""
    ensures var path := UrlSplit(ip6, u).value.path; |path| >= 3 && path[..3] == "://"
  {
    ColonSlashSlash(u);
    NoSchemeFound(ip6, u);
    NoAuthorityFound(ip6, u);
    PathWithoutFragment(u);
    var q := Find(u, '?');
    assert q < |u| ==> u[q] == '?';
    assert u[..q][..3] == u[..3];
  }

  lemma ColonPathStays(path: string)
    requires |path| >= 3 && path[..3] == "://"
    ensures CleanPath(path) != "" && CleanPath(path)[0] == ':'
    ensures |CleanPath(path)| > 1 ==> CleanPath(path)[1] == '/'
  {
    assert path[0] == path[..3][0] && path[1] == path[..3][1];
    var rest := Collapse(path[1..]);
    assert Collapse(path) == [':'] + rest && rest[0] == '/';
    assert RStrip([':'] + rest, IsSlash) != "" by { RStripTail("", [':'] + rest, IsSlash); }
  }

  lemma NoHostInfo()
    ensures HostInfo("") == ("", "") && RStrip(Listings.Lower(""), IsDot) == ""
  { }

  lemma NoPortRead()
    ensures ReadPort("") == Ok(None)
  { }

  lemma PathAloneReads(parts: Split5)
    requires parts.scheme == "" && HostInfo(parts.netloc) == ("", "") && RStrip(Listings.Lower(""), IsDot) == ""
    ensures ReadService(parts) == Ok(Service("", "", None, CleanPath(parts.path), ParseQuery(parts.query)))
  {
    NoPortRead();
  }

  lemma SchemelessJoin(a: string, p: string, q: string)
    ensures Join("", a, p, q) == "://" + (a + (p + Tail(q)))
  { }

  lemma PathAlonePrints(s: Service)
    requires s.scheme == "" && s.host == "" && s.port == None
    ensures Print(s) == "://" + (s.path + Tail(QueryText(s)))
  {
    PrintIs(s);
    SchemelessJoin(Authority(s), s.path, QueryText(s));
    NoAuthority(s);
    assert "" + (s.path + Tail(QueryText(s))) == s.path + Tail(QueryText(s));
  }

  lemma NoAuthority(s: Service)
    requires s.host == "" && s.port == None
    ensures Authority(s) == ""
  { }

  lemma SchemelessService(ip6: string -> bool, u: string) returns (t: Service)
    requires |u| >= 3 && u[..3] == "://" && forall c <- u :: !IsUnsafe(c) && c != '#'
    ensures Read(ip6, u) == Ok(t) && t.scheme == "" && t.host == "" && t.port == None
    ensures t.path != "" && t.path[0] == ':' && (|t.path| > 1 ==> t.path[1] == '/')
  {
    SchemelessReads(ip6, u);
    var parts := UrlSplit(ip6, u).value;
    ColonPathStays(parts.path);
    NoHostInfo();
    PathAloneReads(parts);
    t := ReadService(parts).value;
  }

  /** What such a key normalises to has a colon third and no digit after it. */
  lemma SchemelessKey(ip6: string -> bool, u: string)
    requires |u| >= 3 && u[..3] == "://" && forall c <- u :: !IsUnsafe(c) && c != '#'
    ensures Read(ip6, u).Ok?
    ensures var again := Print(Read(ip6, u).value);
            |again| > 3 && again[3] == ':' && (|again| > 4 ==> !IsDigit(again[4]))
  {
    var t := SchemelessService(ip6, u);
    PathAlonePrints(t);
    ThirdOfPrint(t.path, Tail(QueryText(t)));
  }

  lemma ThirdOfPrint(path: string, tail: string)
    requires path != "" && path[0] == ':' && (|path| > 1 ==> path[1] == '/') && (tail != "" ==> tail[0] == '?')
    ensures var again := "://" + (path + tail); |again| > 3 && again[3] == ':' && (|again| > 4 ==> !IsDigit(again[4]))
  {
    var rest := path + tail;
    assert ("://" + rest)[3] == rest[0];
    assert |rest| > 1 ==> ("://" + rest)[4] == rest[1];
  }

  lemma AllIn(s: string, c: char) returns (i: nat)
    requires c in s
    ensures i < |s| && s[i] == c
  {
    i :| 0 <= i < |s| && s[i] == c;
  }

  lemma KeyIsClean(s: Service)
    requires WellRead(s)
    ensures forall c <- Print(s) :: !IsUnsafe(c) && c != '#'
  {
    PrintIs(s);
    AuthorityChars(s);
    QueryTextChars(s);
    var a, tail := Authority(s), Tail(QueryText(s));
    forall c <- Print(s) ensures !IsUnsafe(c) && c != '#' {
      assert c in s.scheme || c == ':' || c == '/' || c in a || c in s.path || c in tail;
      if c in a { var i := AllIn(a, c); }
      if c in s.path { var i := AllIn(s.path, c); }
      if c in s.scheme { var i := AllIn(s.scheme, c); }
    }
  }

  lemma SchemelessKeyStart(a: string, path: string, tail: string)
    requires a != "" && a[0] == ':' ==> |a| > 1 && IsDigit(a[1])
    requires (path != "" ==> path[0] == '/') && (tail != "" ==> tail[0] == '?')
    ensures var key := "://" + (a + (path + tail));
            key[..3] == "://" && (|key| > 3 && key[3] == ':' ==> |key| > 4 && IsDigit(key[4]))
  {
    var rest := a + (path + tail);
    assert |rest| > 0 ==> ("://" + rest)[3] == rest[0];
    assert |rest| > 1 ==> ("://" + rest)[4] == rest[1];
    assert path + tail != "" ==> (path + tail)[0] != ':';
  }

  lemma SchemelessKeyShape(s: Service)
    requires WellRead(s) && s.scheme == ""
    ensures var key := Print(s);
            |key| >= 3 && key[..3] == "://" && (|key| > 3 && key[3] == ':' ==> |key| > 4 && IsDigit(key[4]))
  {
    PrintIs(s);
    AuthorityIs(s);
    AuthorityStart(s.host, PortText(s));
    SchemelessKeyStart(Authority(s), s.path, Tail(QueryText(s)));
    SchemelessJoin(Authority(s), s.path, QueryText(s));
  }

  lemma AuthorityStart(host: string, text: string)
    requires IsDigits(text)
    ensures var a := Bracketed(host) + WithPort(text); a != "" && a[0] == ':' ==> |a| > 1 && IsDigit(a[1])
  {
    assert host != "" ==> host[0] in host;
  }

  lemma SchemelessStrips(key: string)
    requires |key| >= 3 && key[..3] == "://"
    ensures var u := Strip(key); |u| >= 3 && u[..3] == "://" && forall c <- u :: c in key
  {
    assert key[0] == key[..3][0] && key[2] == key[..3][2];
    var rest := key[2..];
    assert key == ":/" + rest && LStrip(key, IsSpace) == key;
    RStripTail(":/", rest, IsSpace);
    var tail := RStrip(rest, IsSpace);
    assert tail[0] == rest[0] && Strip(key) == ":/" + tail;
    assert (":/" + tail)[..3] == "://";
  }

  lemma SchemelessMoves(ip6: string -> bool, s: Service)
    requires WellRead(s) && s.scheme == ""
    ensures Normalize(ip6, Print(s)) != Ok(Print(s))
  {
    SchemelessKeyShape(s);
    KeyIsClean(s);
    SchemelessStrips(Print(s));
    SchemelessKey(ip6, Strip(Print(s)));
    NormalizePrints(ip6, Print(s), Read(ip6, Strip(Print(s))).value);
  }

  lemma SpaceEndsKeyIff(s: Service)
    requires WellRead(s)
    ensures EndsInSpace(Print(s)) <==> SpaceAtEnd(s)
  {
    if EndsInSpace(Print(s)) { SpaceIsLast(s); }
    if SpaceAtEnd(s) {
      PrintIs(s);
      if s.path != "" {
        JoinPath(s.scheme, Authority(s), s.path);
      } else {
        BareKeyLength(s);
        JoinHost(s.scheme, s.host);
      }
    }
  }

  /**
   A key is its own key exactly if the URL has a scheme, the host read from it reads back, and no
   white space comes last once the URL is cleaned, which the next normalisation would trim.
   */
  lemma KeyIsFixedIff(ip6: string -> bool, url: string, key: string)
    requires Normalize(ip6, url) == Ok(key) && UrlSplit(ip6, Strip(url)).value.netloc != ""
    ensures var parts := UrlSplit(ip6, Strip(url)).value;
            Normalize(ip6, key) == Ok(key) <==>
            var s := Read(ip6, Strip(url)).value;
            parts.scheme != "" && Readable(ip6, s.host) && !SpaceAtEnd(s)
  {
    var s := Read(ip6, Strip(url)).value;
    ReadsWell(ip6, Strip(url));
    SchemeIsKept(UrlSplit(ip6, Strip(url)).value);
    NormalizePrints(ip6, url, s);
    SpaceEndsKeyIff(s);
    FixedIff(ip6, s);
  }

  lemma FixedIff(ip6: string -> bool, s: Service)
    requires WellRead(s)
    ensures Normalize(ip6, Print(s)) == Ok(Print(s)) <==>
              s.scheme != "" && Readable(ip6, s.host) && !EndsInSpace(Print(s))
  {
    if s.scheme == "" {
      SchemelessMoves(ip6, s);
    } else {
      SchemeIsScheme(s);
      if Readable(ip6, s.host) { ServiceKeyFixedIff(ip6, s); } else { UnreadableMoves(ip6, s); }
    }
  }

  lemma PathNormalizes(ip6: string -> bool, s: Service, p: string)
    requires WellRead(s) && IsScheme(s.scheme) && Readable(ip6, s.host) && s.pairs == []
    requires PlainPath(p)
    ensures Normalize(ip6, Join(s.scheme, Authority(s), p, "")) == Ok(Print(s.(path := CleanPath(RStrip(p, IsSpace)))))
  {
    PathStrips(s.scheme, Authority(s), p);
    assert PlainPath(RStrip(p, IsSpace));
    PathReads(ip6, s, RStrip(p, IsSpace));
  }

  lemma SpacedPaths()
    ensures CleanPath(RStrip("/ /", IsSpace)) == "/ " && CleanPath(RStrip("/ ", IsSpace)) == ""
  {
    var slash, space, both := "/", " ", "/ /";
    assert both[1..] == " /" && both[..2] == "/ " && "/ "[1..] == " " && "/ "[..1] == "/";
    assert Collapse(" /") == [' '] + Collapse("/") == " /";
    assert Collapse(both) == ['/'] + Collapse(" /") == both;
    assert RStrip(both, IsSpace) == both;
    assert RStrip(both, IsSlash) == RStrip("/ ", IsSlash) == "/ ";
    assert RStrip("/ ", IsSpace) == RStrip("/", IsSpace) == "/";
    assert RStrip("/", IsSlash) == RStrip("", IsSlash) == "" by { assert "/"[..0] == ""; }
  }

  predicate PlainPath(p: string) {
    p != "" && p[0] == '/' && forall i :: 0 <= i < |p| ==> p[i] != '?' && p[i] != '#' && !IsUnsafe(p[i])
  }

  lemma TwoKeys(ip6: string -> bool, s: Service, p: string, p': string)
    requires WellRead(s) && IsScheme(s.scheme) && Readable(ip6, s.host) && s.pairs == [] && s.path == ""
    requires PlainPath(p) && CleanPath(RStrip(p, IsSpace)) == p' && PlainPath(p')
    requires CleanPath(RStrip(p', IsSpace)) == ""
    ensures Normalize(ip6, Join(s.scheme, Authority(s), p, "")) == Ok(Print(s.(path := p')))
    ensures Normalize(ip6, Print(s.(path := p'))) == Ok(Print(s))
  {
    PathNormalizes(ip6, s, p);
    PathNormalizes(ip6, s, p');
    PathPrints(s, p');
    assert s.(path := "") == s;
  }

  /** Cleaning "/ /" uncovers a space, and cleaning what stripping it leaves drops the path. */
  lemma SpaceBeforeSlash(ip6: string -> bool, s: Service)
    requires WellRead(s) && IsScheme(s.scheme) && Readable(ip6, s.host) && s.pairs == [] && s.path == ""
    ensures Normalize(ip6, Join(s.scheme, Authority(s), "/ /", "")) == Ok(Print(s.(path := "/ ")))
    ensures Normalize(ip6, Print(s.(path := "/ "))) == Ok(Print(s))
  {
    SpacedPaths();
    TwoKeys(ip6, s, "/ /", "/ ");
  }

  lemma PathPrints(s: Service, p: string)
    requires s.pairs == []
    ensures Print(s.(path := p)) == Join(s.scheme, Authority(s), p, "")
  {
    PrintIs(s.(path := p));
  }

  lemma PathReads(ip6: string -> bool, s: Service, p: string)
    requires WellRead(s) && IsScheme(s.scheme) && Readable(ip6, s.host) && s.pairs == []
    requires PlainPath(p)
    ensures Read(ip6, Join(s.scheme, Authority(s), p, "")) == Ok(s.(path := CleanPath(p)))
  {
    HostStays(s.host);
    AuthorityIs(s);
    JoinedReads(ip6, s.scheme, s.host, PortText(s), p, "");
    PortReads(s);
  }
}
