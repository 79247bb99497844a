/**
 The canonical form of an endpoint URL. `ip6` stands for the library's check of the text between
 square brackets in an authority.
 */
module Endpoint {
  import opened Wrappers
  import opened Orders
  import opened Texts
  import opened Queries
  import Listings

  datatype Error = BadUrl

  // ---- Splitting, as urllib.parse.urlsplit does ----

  datatype Split5 = Split5(scheme: string, netloc: string, path: string, query: string)

  predicate IsC0OrSpace(c: char) {
    c <= ' '
  }

  predicate IsUnsafe(c: char) {
    c == '\t' || c == '\r' || c == '\n'
  }

  predicate IsLetter(c: char) {
    'a' <= c <= 'z' || 'A' <= c <= 'Z'
  }

  predicate IsSchemeChar(c: char) {
    IsLetter(c) || '0' <= c <= '9' || c == '+' || c == '-' || c == '.'
  }

  predicate IsScheme(s: string) {
    |s| > 0 && IsLetter(s[0]) && forall i :: 0 <= i < |s| ==> IsSchemeChar(s[i])
  }

  predicate EndsAuthority(c: char) {
    c == '/' || c == '?' || c == '#'
  }

  function AuthorityLength(s: string): (n: nat)
    ensures n <= |s| && forall i :: 0 <= i < n ==> !EndsAuthority(s[i])
    ensures n < |s| ==> EndsAuthority(s[n])
  {
    if |s| == 0 || EndsAuthority(s[0]) then 0
    else
      var n := 1 + AuthorityLength(s[1..]);
      assert forall i :: 0 < i < n ==> s[i] == s[1..][i - 1];
      n
  }

  /** Brackets come in pairs, and what the first pair holds is an address. */
  predicate BracketsOk(ip6: string -> bool, netloc: string) {
    && ('[' in netloc <==> ']' in netloc)
    && ('[' in netloc ==>
          var inner := netloc[Find(netloc, '[')..][1..];
          ip6(inner[..Find(inner, ']')]))
  }

  function UrlSplit(ip6: string -> bool, url: string): Result<Split5, Error> {
    var u := Remove(LStrip(url, IsC0OrSpace), IsUnsafe);
    var i := Find(u, ':');
    if i < |u| && IsScheme(u[..i]) then SplitRest(ip6, Listings.Lower(u[..i]), u[i + 1..]) else SplitRest(ip6, "", u)
  }

  function SplitRest(ip6: string -> bool, scheme: string, u: string): Result<Split5, Error> {
    if |u| >= 2 && u[..2] == "//" then
      var n := AuthorityLength(u[2..]);
      var netloc := u[2..][..n];
      if BracketsOk(ip6, netloc) then Ok(SplitPath(scheme, netloc, u[2..][n..])) else Err(BadUrl)
    else Ok(SplitPath(scheme, "", u))
  }

  function SplitPath(scheme: string, netloc: string, u: string): Split5 {
    var w := u[..Find(u, '#')];
    var q := Find(w, '?');
    Split5(scheme, netloc, w[..q], if q < |w| then w[q + 1..] else "")
  }

  // ---- Host and port ----

  /** The text up to the first `c`, and the text after it, if any. */
  function Partition(s: string, c: char): (string, string) {
    var i := Find(s, c);
    (s[..i], if i < |s| then s[i + 1..] else "")
  }

  /** What follows an opening bracket: the address, and the port after the bracket that closes it. */
  function BracketInfo(inner: string): (string, string) {
    var (host, after) := Partition(inner, ']');
    (host, Partition(after, ':').1)
  }

  /** The host as written and the text of the port, if any. */
  function HostInfo(netloc: string): (string, string) {
    var info := AfterLast(netloc, '@');
    if '[' in info then BracketInfo(Partition(info, '[').1) else Partition(info, ':')
  }

  const MAX_PORT := 65535

  function ReadPort(text: string): Result<Option<nat>, Error> {
    if text == "" then Ok(None)
    else if IsDigits(text) && Number(text) <= MAX_PORT then Ok(Some(Number(text)))
    else Err(BadUrl)
  }

  function DefaultPort(scheme: string): Option<nat> {
    if scheme == "https" then Some(443) else if scheme == "http" then Some(80) else None
  }

  // ---- The key ----

  /** What two URLs must share to be the same service. `port` is the one a request would go to. */
  datatype Service = Service(scheme: string, host: string, port: Option<nat>, path: string, pairs: seq<Pair>)

  /** Runs of slashes become one. */
  function Collapse(path: string): (r: string)
    ensures |r| <= |path|
    ensures path != "" ==> r != "" && r[0] == path[0]
  {
    if |path| < 2 then path
    else if path[0] == '/' && path[1] == '/' then Collapse(path[1..])
    else [path[0]] + Collapse(path[1..])
  }

  predicate IsSlash(c: char) {
    c == '/'
  }

  predicate IsDot(c: char) {
    c == '.'
  }

  function CleanPath(path: string): string {
    RStrip(Collapse(path), IsSlash)
  }

  function ReadService(parts: Split5): Result<Service, Error> {
    var (host, portText) := HostInfo(parts.netloc);
    var port := ReadPort(portText);
    if port.Err? then Err(port.error)
    else Ok(Service(parts.scheme, RStrip(Listings.Lower(host), IsDot),
                    if port.value.Some? then port.value else DefaultPort(parts.scheme),
                    CleanPath(parts.path), ParseQuery(parts.query)))
  }

  function Read(ip6: string -> bool, url: string): Result<Service, Error> {
    var parts := UrlSplit(ip6, url);
    if parts.Err? then Err(parts.error) else ReadService(parts.value)
  }

  predicate PairLeq(a: Pair, b: Pair) {
    if a.0 == b.0 then TextLeq(a.1, b.1) else TextLeq(a.0, b.0)
  }

  function Authority(s: Service): string {
    (if ':' in s.host then "[" + s.host + "]" else s.host)
    + if s.port.None? || s.port == DefaultPort(s.scheme) then "" else ":" + Decimal(s.port.value)
  }

  function Print(s: Service): string {
    var query := UrlEncode(Sort(s.pairs, PairLeq));
    s.scheme + "://" + Authority(s) + s.path + if query == "" then "" else "?" + query
  }

  function Normalize(ip6: string -> bool, url: string): Result<string, Error> {
    var service := Read(ip6, Strip(url));
    if service.Err? then Err(service.error) else Ok(Print(service.value))
  }

  // ---- The order of pairs ----

  lemma PairLeqIsTotalOrder()
    ensures TotalOrder(PairLeq)
  {
    TextLeqIsTotalOrder();
  }

  // ---- What reading yields ----

  predicate InAuthority(c: char) {
    !EndsAuthority(c) && c != '@' && !IsUnsafe(c)
  }

  /** A host is bare, or bracketed because it holds a colon; either way it ends where it should. */
  predicate HostShape(host: string) {
    && (forall i :: 0 <= i < |host| ==> InAuthority(host[i]) && Listings.LowerChar(host[i]) == host[i])
    && (']' !in host || ('[' !in host && ':' !in host))
    && (host != "" ==> host[|host| - 1] != '.')
  }

  predicate PathShape(path: string) {
    && (path != "" ==> path[0] == '/' && path[|path| - 1] != '/')
    && (forall i :: 0 <= i < |path| ==> path[i] != '?' && path[i] != '#' && !IsUnsafe(path[i]))
    && Collapse(path) == path
  }

  predicate SchemeShape(scheme: string) {
    forall i :: 0 <= i < |scheme| ==> IsSchemeChar(scheme[i]) && Listings.LowerChar(scheme[i]) == scheme[i]
  }

  predicate WellRead(s: Service) {
    && SchemeShape(s.scheme) && (s.scheme != "" ==> IsLetter(s.scheme[0]))
    && HostShape(s.host) && PathShape(s.path)
    && (s.port.Some? ==> s.port.value <= MAX_PORT) && (s.port.None? ==> DefaultPort(s.scheme).None?)
  }

  lemma {:induction false} CollapseChars(path: string)
    ensures forall c <- Collapse(path) :: c in path
    ensures Collapse(Collapse(path)) == Collapse(path)
  {
    if |path| >= 2 {
      CollapseChars(path[1..]);
      assert path == [path[0]] + path[1..];
      var rest := Collapse(path[1..]);
      assert ([path[0]] + rest)[1..] == rest;
    }
  }

  lemma {:induction false} CollapsePrefix(path: string, n: nat)
    requires Collapse(path) == path && n <= |path|
    ensures Collapse(path[..n]) == path[..n]
  {
    if n >= 2 {
      assert !(path[0] == '/' && path[1] == '/') by {
        assert |Collapse(path[1..])| <= |path| - 1;
      }
      assert Collapse(path[1..]) == path[1..] by {
        assert [path[0]] + Collapse(path[1..]) == path;
        assert ([path[0]] + Collapse(path[1..]))[1..] == Collapse(path[1..]);
      }
      CollapsePrefix(path[1..], n - 1);
      assert path[1..][..n - 1] == path[..n][1..];
    }
  }

  lemma CleanPathShape(path: string)
    requires path != "" ==> path[0] == '/'
    requires forall i :: 0 <= i < |path| ==> path[i] != '?' && path[i] != '#' && !IsUnsafe(path[i])
    ensures PathShape(CleanPath(path)) && |CleanPath(path)| <= |path|
  {
    CollapseChars(path);
    var c := Collapse(path);
    forall i | 0 <= i < |c| ensures c[i] != '?' && c[i] != '#' && !IsUnsafe(c[i]) {
      assert c[i] in path;
    }
    CollapsePrefix(c, |CleanPath(path)|);
  }

  lemma RStripShape(s: string, drop: char -> bool)
    ensures forall c <- RStrip(s, drop) :: c in s
  { }

  lemma HostInfoChars(netloc: string)
    requires forall i :: 0 <= i < |netloc| ==> !EndsAuthority(netloc[i]) && !IsUnsafe(netloc[i])
    ensures var written := HostInfo(netloc).0;
            && (forall i :: 0 <= i < |written| ==> InAuthority(written[i]))
            && (']' !in written || ('[' !in written && ':' !in written))
  {
    var info := AfterLast(netloc, '@');
    AfterLastIsEnd(netloc, '@');
    assert AllInAuthority(info) by {
      forall i | 0 <= i < |info| ensures InAuthority(info[i]) {
        assert info[i] == netloc[|netloc| - |info| + i] && info[i] in info;
      }
    }
    if '[' in info {
      FindSome(info, '[');
      var inner := Partition(info, '[').1;
      SliceInAuthority(info, Find(info, '[') + 1, |info|);
      SliceInAuthority(inner, 0, Find(inner, ']'));
    } else {
      SliceInAuthority(info, 0, Find(info, ':'));
      assert forall c <- info[..Find(info, ':')] :: c in info;
    }
  }

  lemma FindSome(s: string, c: char)
    requires c in s
    ensures Find(s, c) < |s|
  {
    assert s[..|s|] == s;
  }

  predicate AllInAuthority(s: string) {
    forall i :: 0 <= i < |s| ==> InAuthority(s[i])
  }

  lemma SliceInAuthority(s: string, i: nat, j: nat)
    requires i <= j <= |s| && AllInAuthority(s)
    ensures AllInAuthority(s[i..j])
  { }

  lemma LoweredHostShape(written: string)
    requires forall i :: 0 <= i < |written| ==> InAuthority(written[i])
    requires ']' !in written || ('[' !in written && ':' !in written)
    ensures HostShape(RStrip(Listings.Lower(written), IsDot))
  {
    var host := RStrip(Listings.Lower(written), IsDot);
    assert forall i :: 0 <= i < |host| ==> host[i] == Listings.LowerChar(written[i]);
    LowerKeeps(written, ']');
    LowerKeeps(written, '[');
    LowerKeeps(written, ':');
    RStripShape(Listings.Lower(written), IsDot);
  }

  lemma LowerKeeps(s: string, c: char)
    requires !IsLetter(c)
    ensures c in Listings.Lower(s) <==> c in s
  {
    if c in s {
      var i :| 0 <= i < |s| && s[i] == c;
      assert Listings.Lower(s)[i] == c;
    }
  }

  lemma RestChars(u: string, n: nat)
    requires n <= |u| && forall i :: 0 <= i < |u| ==> !IsUnsafe(u[i])
    requires n < |u| ==> EndsAuthority(u[n])
    ensures var p := SplitPath("", "", u[n..]).path;
            (p != "" ==> p[0] == '/') && forall i :: 0 <= i < |p| ==> p[i] != '?' && p[i] != '#' && !IsUnsafe(p[i])
  {
    var rest := u[n..];
    var w := rest[..Find(rest, '#')];
    var p := w[..Find(w, '?')];
    forall i | 0 <= i < |p| ensures p[i] != '?' && p[i] != '#' && !IsUnsafe(p[i]) {
      assert p[i] == w[i] && w[i] == rest[i] && rest[i] == u[n + i];
      assert p[i] in p && w[i] in w;
    }
  }

  /** What splitting yields for a URL with an authority. */
  predicate Shaped(parts: Split5) {
    && SchemeShape(parts.scheme) && (parts.scheme != "" ==> IsLetter(parts.scheme[0]))
    && (forall i :: 0 <= i < |parts.netloc| ==> !EndsAuthority(parts.netloc[i]) && !IsUnsafe(parts.netloc[i]))
    && (parts.path != "" ==> parts.path[0] == '/')
    && (forall i :: 0 <= i < |parts.path| ==> parts.path[i] != '?' && parts.path[i] != '#' && !IsUnsafe(parts.path[i]))
  }

  lemma RestShape(ip6: string -> bool, scheme: string, u: string)
    requires SchemeShape(scheme) && (scheme != "" ==> IsLetter(scheme[0]))
    requires forall i :: 0 <= i < |u| ==> !IsUnsafe(u[i])
    requires SplitRest(ip6, scheme, u).Ok? && SplitRest(ip6, scheme, u).value.netloc != ""
    ensures Shaped(SplitRest(ip6, scheme, u).value)
  {
    var body := u[2..];
    assert forall i :: 0 <= i < |body| ==> body[i] == u[2 + i];
    RestChars(body, AuthorityLength(body));
  }

  lemma LowerScheme(s: string)
    requires IsScheme(s)
    ensures SchemeShape(Listings.Lower(s)) && IsLetter(Listings.Lower(s)[0])
  { }

  lemma CleanedShape(url: string)
    ensures var u := Remove(LStrip(url, IsC0OrSpace), IsUnsafe);
            forall i :: 0 <= i < |u| ==> !IsUnsafe(u[i])
  {
    var u := Remove(LStrip(url, IsC0OrSpace), IsUnsafe);
    assert forall i :: 0 <= i < |u| ==> u[i] in u;
  }

  lemma UrlShape(ip6: string -> bool, url: string)
    requires UrlSplit(ip6, url).Ok? && UrlSplit(ip6, url).value.netloc != ""
    ensures Shaped(UrlSplit(ip6, url).value)
  {
    var u := Remove(LStrip(url, IsC0OrSpace), IsUnsafe);
    CleanedShape(url);
    var i := Find(u, ':');
    if i < |u| && IsScheme(u[..i]) {
      LowerScheme(u[..i]);
      RestShape(ip6, Listings.Lower(u[..i]), u[i + 1..]);
    } else {
      RestShape(ip6, "", u);
    }
  }

  /** Every accepted URL with an authority reads as a well-formed service. */
  lemma ReadsWell(ip6: string -> bool, url: string)
    requires UrlSplit(ip6, url).Ok? && UrlSplit(ip6, url).value.netloc != "" && Read(ip6, url).Ok?
    ensures WellRead(Read(ip6, url).value)
  {
    UrlShape(ip6, url);
    ServiceShape(UrlSplit(ip6, url).value);
  }

  lemma ReadHost(netloc: string)
    requires forall i :: 0 <= i < |netloc| ==> !EndsAuthority(netloc[i]) && !IsUnsafe(netloc[i])
    ensures HostShape(RStrip(Listings.Lower(HostInfo(netloc).0), IsDot))
  {
    HostInfoChars(netloc);
    LoweredHostShape(HostInfo(netloc).0);
  }

  lemma ReadPortOf(scheme: string, text: string)
    requires ReadPort(text).Ok?
    ensures var read := ReadPort(text).value;
            var port := if read.Some? then read else DefaultPort(scheme);
            (port.Some? ==> port.value <= MAX_PORT) && (port.None? ==> DefaultPort(scheme).None?)
  {
    PortShape(text);
  }

  lemma ServiceShape(parts: Split5)
    requires Shaped(parts) && ReadService(parts).Ok?
    ensures WellRead(ReadService(parts).value)
  {
    ReadHost(parts.netloc);
    ReadPortOf(parts.scheme, HostInfo(parts.netloc).1);
    CleanPathShape(parts.path);
  }

  lemma PortShape(text: string)
    requires ReadPort(text).Ok?
    ensures ReadPort(text).value.Some? ==> ReadPort(text).value.value <= MAX_PORT
  { }

  // ---- What printing can be read back from ----

  function Tail(q: string): string {
    if q == "" then "" else "?" + q
  }

  lemma RestSplitsBack(ip6: string -> bool, scheme: string, a: string, p: string, q: string)
    requires forall i :: 0 <= i < |a| ==> !EndsAuthority(a[i])
    requires p != "" ==> p[0] == '/'
    requires forall i :: 0 <= i < |p| ==> p[i] != '?' && p[i] != '#'
    requires '#' !in q
    ensures SplitRest(ip6, scheme, "//" + (a + (p + Tail(q)))) ==
            if BracketsOk(ip6, a) then Ok(Split5(scheme, a, p, q)) else Err(BadUrl)
  {
    var rest := a + (p + Tail(q));
    assert ("//" + rest)[..2] == "//" && ("//" + rest)[2..] == rest;
    AuthorityEnds(a, p + Tail(q));
    assert rest[..|a|] == a && rest[|a|..] == p + Tail(q);
    PathEnds(scheme, a, p, q);
  }

  lemma JoinIsClean(scheme: string, a: string, p: string, q: string)
    requires SchemeShape(scheme) && forall i :: 0 <= i < |a| ==> InAuthority(a[i])
    requires forall i :: 0 <= i < |p| ==> !IsUnsafe(p[i])
    requires forall c <- q :: !IsUnsafe(c)
    ensures forall c <- Join(scheme, a, p, q) :: !IsUnsafe(c)
  {
    forall c <- Join(scheme, a, p, q) ensures !IsUnsafe(c) {
      assert c in scheme || c == ':' || c == '/' || c in a || c in p || c == '?' || c in q;
    }
  }

  lemma JoinIs(scheme: string, a: string, p: string, q: string)
    ensures Join(scheme, a, p, q) == scheme + ":" + ("//" + (a + (p + Tail(q))))
  { }

  lemma SchemeSplits(ip6: string -> bool, u: string, scheme: string, rest: string)
    requires IsScheme(scheme) && SchemeShape(scheme) && u == scheme + ":" + rest && forall c <- u :: !IsUnsafe(c)
    ensures UrlSplit(ip6, u) == SplitRest(ip6, scheme, rest)
  {
    assert u[0] == scheme[0];
    RemoveNone(u, IsUnsafe);
    FindIn(scheme, ':', rest);
    assert u[..|scheme|] == scheme && u[|scheme| + 1..] == rest;
    assert Listings.Lower(scheme) == scheme;
  }

  /** A URL put together from clean pieces splits into those pieces, if its brackets are in order. */
  lemma SplitsBack(ip6: string -> bool, scheme: string, a: string, p: string, q: string)
    requires IsScheme(scheme) && SchemeShape(scheme)
    requires forall i :: 0 <= i < |a| ==> InAuthority(a[i])
    requires p != "" ==> p[0] == '/'
    requires forall i :: 0 <= i < |p| ==> p[i] != '?' && p[i] != '#' && !IsUnsafe(p[i])
    requires forall c <- q :: c != '#' && !IsUnsafe(c)
    ensures UrlSplit(ip6, Join(scheme, a, p, q)) == if BracketsOk(ip6, a) then Ok(Split5(scheme, a, p, q))
                                                    else Err(BadUrl)
  {
    JoinIs(scheme, a, p, q);
    JoinIsClean(scheme, a, p, q);
    SchemeSplits(ip6, Join(scheme, a, p, q), scheme, "//" + (a + (p + Tail(q))));
    RestSplitsBack(ip6, scheme, a, p, q);
  }

  function Join(scheme: string, a: string, p: string, q: string): string {
    scheme + "://" + a + p + if q == "" then "" else "?" + q
  }

  lemma {:induction false} AuthorityEnds(a: string, rest: string)
    requires forall i :: 0 <= i < |a| ==> !EndsAuthority(a[i])
    requires rest != "" ==> EndsAuthority(rest[0])
    ensures AuthorityLength(a + rest) == |a|
  {
    if |a| != 0 {
      assert (a + rest)[1..] == a[1..] + rest && (a + rest)[0] == a[0];
      AuthorityEnds(a[1..], rest);
    } else {
      assert a + rest == rest;
    }
  }

  lemma QuerySplits(p: string, q: string)
    requires '?' !in p && q != ""
    ensures var w := p + "?" + q; Find(w, '?') == |p| && w[..|p|] == p && w[|p| + 1..] == q
  {
    FindIn(p, '?', q);
  }

  lemma PathEnds(scheme: string, a: string, p: string, q: string)
    requires forall i :: 0 <= i < |p| ==> p[i] != '?' && p[i] != '#'
    requires '#' !in q
    ensures SplitPath(scheme, a, p + Tail(q)) == Split5(scheme, a, p, q)
  {
    var w := p + Tail(q);
    FindNone(w, '#');
    assert w[..|w|] == w;
    if q == "" {
      FindNone(p, '?');
      assert w == p && p[..|p|] == p;
    } else {
      QuerySplits(p, q);
      assert w == p + "?" + q;
    }
  }

  function PortText(s: Service): string {
    if s.port.None? || s.port == DefaultPort(s.scheme) then "" else Decimal(s.port.value)
  }

  function WithPort(text: string): string {
    if text == "" then "" else ":" + text
  }

  function Bracketed(host: string): string {
    if ':' in host then "[" + host + "]" else host
  }

  lemma AuthorityIs(s: Service)
    ensures Authority(s) == Bracketed(s.host) + WithPort(PortText(s))
  { }

  lemma PartitionAt(a: string, c: char, b: string)
    requires c !in a
    ensures Partition(a + [c] + b, c) == (a, b)
    ensures Partition(a, c) == (a, "")
  {
    FindIn(a, c, b);
    FindNone(a, c);
    var s := a + [c] + b;
    assert s[..|a|] == a && s[|a| + 1..] == b && a[..|a|] == a;
  }

  /** The host and the port of an authority this module prints. */
  function CutAuthority(a: string): (string, string) {
    if a != "" && a[0] == '[' && ']' in a then
      var (host, rest) := Partition(a[1..], ']');
      (host, if rest == "" then "" else rest[1..])
    else Partition(a, ':')
  }

  lemma Bracketing(host: string, w: string)
    ensures "[" + host + "]" + w == "[" + (host + "]" + w)
  { }

  lemma BracketedReads(host: string, text: string)
    requires ']' !in host
    ensures CutAuthority("[" + host + "]" + WithPort(text)) == (host, text)
  {
    var w := WithPort(text);
    var rest := host + "]" + w;
    Bracketing(host, w);
    assert ("[" + rest)[1..] == rest;
    assert rest[|host|] == ']' && ']' in rest;
    PartitionAt(host, ']', w);
    assert text != "" ==> w[1..] == text;
  }

  lemma BarePartitions(host: string, text: string)
    requires ':' !in host
    ensures Partition(host + WithPort(text), ':') == (host, text)
  {
    PartitionAt(host, ':', text);
    if text == "" {
      assert host + WithPort(text) == host;
    } else {
      assert host + WithPort(text) == host + ":" + text;
    }
  }

  lemma BareReads(host: string, text: string)
    requires ':' !in host && (']' !in host || '[' !in host) && ']' !in text
    ensures CutAuthority(host + WithPort(text)) == (host, text)
  {
    var a := host + WithPort(text);
    assert ']' in a <==> ']' in host;
    assert a != "" && a[0] == '[' ==> a[0] in host by {
      assert host != "" ==> a[0] == host[0] && host[0] in host;
    }
    BarePartitions(host, text);
  }

  lemma AuthorityReads(host: string, text: string)
    requires HostShape(host) && IsDigits(text)
    ensures CutAuthority(Bracketed(host) + WithPort(text)) == (host, text)
  {
    if ':' in host { BracketedReads(host, text); } else { BareReads(host, text); }
  }

  lemma PortTextTells(scheme: string, s: Service, t: Service)
    requires WellRead(s) && WellRead(t) && s.scheme == t.scheme
    ensures PortText(s) == PortText(t) <==> s.port == t.port
  {
    if s.port.Some? { NumberOfDecimal(s.port.value); }
    if t.port.Some? { NumberOfDecimal(t.port.value); }
  }

  lemma AuthorityTells(s: Service, t: Service)
    requires WellRead(s) && WellRead(t) && s.scheme == t.scheme && Authority(s) == Authority(t)
    ensures s.host == t.host && s.port == t.port
  {
    AuthorityIs(s);
    AuthorityIs(t);
    AuthorityReads(s.host, PortText(s));
    AuthorityReads(t.host, PortText(t));
    PortTextTells(s.scheme, s, t);
  }

  /** The pieces of a key, cut as a URL is. */
  function Cut(key: string): Split5 {
    var (scheme, after) := Partition(key, ':');
    if |after| < 2 then Split5(scheme, "", "", "")
    else
      var u := after[2..];
      var n := AuthorityLength(u);
      SplitPath(scheme, u[..n], u[n..])
  }

  function QueryText(s: Service): string {
    UrlEncode(Sort(s.pairs, PairLeq))
  }

  lemma PrintIs(s: Service)
    ensures Print(s) == Join(s.scheme, Authority(s), s.path, QueryText(s))
    ensures s.pairs == [] ==> QueryText(s) == ""
  { }

  lemma QueryTextChars(s: Service)
    ensures forall c <- QueryText(s) :: c != '#' && !IsUnsafe(c) && !IsSpace(c)
  {
    ParseEncoded(Sort(s.pairs, PairLeq));
    forall c | IsQuoted(c) || c == '=' || c == '&' ensures c != '#' && !IsUnsafe(c) && !IsSpace(c) { }
  }

  lemma AuthorityChars(s: Service)
    requires WellRead(s)
    ensures forall i :: 0 <= i < |Authority(s)| ==> InAuthority(Authority(s)[i])
  {
    AuthorityIs(s);
    forall c <- Authority(s) ensures InAuthority(c) {
      assert c in s.host || c == '[' || c == ']' || c == ':' || c in PortText(s);
    }
  }

  lemma JoinCuts(scheme: string, a: string, p: string, q: string)
    requires ':' !in scheme && forall i :: 0 <= i < |a| ==> !EndsAuthority(a[i])
    requires p != "" ==> p[0] == '/'
    requires forall i :: 0 <= i < |p| ==> p[i] != '?' && p[i] != '#'
    requires '#' !in q
    ensures Cut(Join(scheme, a, p, q)) == Split5(scheme, a, p, q)
  {
    var rest := a + (p + Tail(q));
    JoinIs(scheme, a, p, q);
    PartitionAt(scheme, ':', "//" + rest);
    assert ("//" + rest)[2..] == rest;
    AuthorityEnds(a, p + Tail(q));
    assert rest[..|a|] == a && rest[|a|..] == p + Tail(q);
    PathEnds(scheme, a, p, q);
  }

  lemma KeyCuts(s: Service)
    requires WellRead(s)
    ensures Cut(Print(s)) == Split5(s.scheme, Authority(s), s.path, QueryText(s))
  {
    AuthorityChars(s);
    QueryTextChars(s);
    assert ':' !in s.scheme;
    JoinCuts(s.scheme, Authority(s), s.path, QueryText(s));
    assert Print(s) == Join(s.scheme, Authority(s), s.path, QueryText(s));
  }

  // ---- Equal keys ----

  /** The same scheme, host, port, path, and query pairs in whatever order. */
  ghost predicate SameService(s: Service, t: Service) {
    s.scheme == t.scheme && s.host == t.host && s.port == t.port && s.path == t.path
    && multiset(s.pairs) == multiset(t.pairs)
  }

  lemma KeysTellServices(s: Service, t: Service)
    requires WellRead(s) && WellRead(t)
    ensures Print(s) == Print(t) <==> SameService(s, t)
  {
    PairLeqIsTotalOrder();
    SortSameIffSameElements(s.pairs, t.pairs, PairLeq);
    if Print(s) == Print(t) {
      KeyCuts(s);
      KeyCuts(t);
      AuthorityTells(s, t);
      ParseEncoded(Sort(s.pairs, PairLeq));
      ParseEncoded(Sort(t.pairs, PairLeq));
    } else if SameService(s, t) {
      PrintIs(s);
      PrintIs(t);
      AuthorityIs(s);
      AuthorityIs(t);
    }
  }

  /** Two accepted URLs with an authority get one key exactly if they are the same service. */
  lemma SameKeyIffSameService(ip6: string -> bool, url: string, other: string)
    requires Normalize(ip6, url).Ok? && Normalize(ip6, other).Ok?
    requires UrlSplit(ip6, Strip(url)).value.netloc != "" && UrlSplit(ip6, Strip(other)).value.netloc != ""
    ensures Normalize(ip6, url) == Normalize(ip6, other)
       <==> SameService(Read(ip6, Strip(url)).value, Read(ip6, Strip(other)).value)
  {
    ReadsWell(ip6, Strip(url));
    ReadsWell(ip6, Strip(other));
    KeysTellServices(Read(ip6, Strip(url)).value, Read(ip6, Strip(other)).value);
  }
}
