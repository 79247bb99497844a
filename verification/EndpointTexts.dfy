/**
 Keys told from the URL as it is written: its scheme and host in any case, user information, a port, any
 slashes, a query and a fragment.
 */
module EndpointTexts {
  import opened Wrappers
  import opened Orders
  import opened Texts
  import opened Queries
  import opened Endpoint
  import opened EndpointKeys
  import Listings

  // ---- Paths ----

  /** The pieces of a path between its slashes, the empty ones left out. */
  function Segments(path: string): (segments: seq<string>)
    ensures forall s <- segments :: s != "" && '/' !in s
    decreases |path|
  {
    if path == "" then []
    else if path[0] == '/' then Segments(path[1..])
    else
      var n := Find(path, '/');
      [path[..n]] + Segments(path[n..])
  }

  function Slashed(segments: seq<string>): string {
    if segments == [] then "" else "/" + segments[0] + Slashed(segments[1..])
  }

  lemma {:induction false} CollapseSegment(segment: string, rest: string)
    requires '/' !in segment && (rest != "" ==> rest[0] == '/')
    ensures Collapse(segment + rest) == segment + Collapse(rest)
  {
    if segment == "" {
      assert segment + rest == rest;
    } else {
      var path := segment + rest;
      assert path[0] == segment[0] && segment[0] in segment && path[1..] == segment[1..] + rest;
      CollapseSegment(segment[1..], rest);
      assert segment + Collapse(rest) == [segment[0]] + (segment[1..] + Collapse(rest));
      if |path| < 2 { assert segment[1..] + rest == "" && rest == ""; }
    }
  }

  /** The slash a path ends in, if it does. */
  function LastSlash(path: string): string {
    if path != "" && path[|path| - 1] == '/' then "/" else ""
  }

  /** A path that starts with a slash and a segment, cut there. */
  lemma CutSegment(path: string, n: nat)
    requires |path| > 1 && path[0] == '/' && path[1] != '/' && n == Find(path[1..], '/')
    ensures 0 < n < |path| && path[1..][..n] != "" && '/' !in path[1..][..n]
    ensures path[n + 1..] != "" ==> path[n + 1..][0] == '/'
    ensures path == "/" + path[1..][..n] + path[n + 1..]
  {
    assert path[1..][0] == path[1];
  }

  lemma SlashThen(rest: string)
    requires rest != "" && rest[0] != '/'
    ensures Collapse("/" + rest) == "/" + Collapse(rest)
  {
    var path := "/" + rest;
    assert path[1] == rest[0] && path[1..] == rest;
  }

  lemma CollapseFirst(segment: string, tail: string)
    requires segment != "" && '/' !in segment && (tail != "" ==> tail[0] == '/')
    ensures Collapse("/" + segment + tail) == "/" + segment + Collapse(tail)
  {
    var rest := segment + tail;
    assert rest[0] == segment[0] && segment[0] in segment;
    SlashThen(rest);
    CollapseSegment(segment, tail);
    Reassociate("/", segment, tail);
    Reassociate("/", segment, Collapse(tail));
  }

  lemma LastSlashOf(segment: string, tail: string)
    requires segment != "" && '/' !in segment
    ensures LastSlash("/" + segment + tail) == LastSlash(tail)
  {
    var path := "/" + segment + tail;
    if tail == "" {
      assert path[|path| - 1] == segment[|segment| - 1] && segment[|segment| - 1] in segment;
    } else {
      assert path[|path| - 1] == tail[|tail| - 1];
    }
  }

  lemma CollapseNext(path: string, n: nat)
    requires |path| > 1 && path[0] == '/' && path[1] != '/' && n == Find(path[1..], '/')
    ensures n < |path| && Collapse(path) == "/" + path[1..][..n] + Collapse(path[n + 1..])
    ensures LastSlash(path) == LastSlash(path[n + 1..])
  {
    CutSegment(path, n);
    CollapseFirst(path[1..][..n], path[n + 1..]);
    LastSlashOf(path[1..][..n], path[n + 1..]);
  }

  /** Collapsing leaves one slash before each segment, and one at the end if there were any. */
  lemma {:induction false} CollapsedPath(path: string)
    requires path != "" ==> path[0] == '/'
    ensures Collapse(path) == Slashed(Segments(path)) + LastSlash(path)
    decreases |path|, 1
  {
    if |path| == 1 {
      assert path == "/" && path[1..] == "" && Segments(path) == [];
    } else if |path| > 1 && path[1] == '/' {
      assert path[1..][|path| - 2] == path[|path| - 1];
      CollapsedPath(path[1..]);
    } else if |path| > 1 {
      CollapsedMore(path);
    }
  }

  lemma {:induction false} CollapsedMore(path: string)
    requires |path| > 1 && path[0] == '/' && path[1] != '/'
    ensures Collapse(path) == Slashed(Segments(path)) + LastSlash(path)
    decreases |path|, 0
  {
    var n := Find(path[1..], '/');
    var segment, tail := path[1..][..n], path[n + 1..];
    CutSegment(path, n);
    CollapseNext(path, n);
    CollapsedPath(tail);
    SegmentsNext(path, n);
    Reassociate("/" + segment, Slashed(Segments(tail)), LastSlash(tail));
  }

  lemma Reassociate(a: string, b: string, c: string)
    ensures a + (b + c) == a + b + c
  { }

  lemma SegmentsNext(path: string, n: nat)
    requires |path| > 1 && path[0] == '/' && path[1] != '/' && n == Find(path[1..], '/')
    ensures Segments(path) == [path[1..][..n]] + Segments(path[n + 1..])
    ensures Slashed(Segments(path)) == "/" + path[1..][..n] + Slashed(Segments(path[n + 1..]))
  {
    var rest := path[1..];
    assert rest[n..] == path[n + 1..];
    assert Segments(path) == Segments(rest) == [rest[..n]] + Segments(rest[n..]);
    assert ([rest[..n]] + Segments(rest[n..]))[1..] == Segments(rest[n..]);
  }

  lemma {:induction false} SlashedEnds(segments: seq<string>)
    requires forall s <- segments :: s != "" && '/' !in s
    ensures segments != [] ==> Slashed(segments) != "" && Slashed(segments)[|Slashed(segments)| - 1] != '/'
  {
    if segments != [] {
      var first, rest := segments[0], Slashed(segments[1..]);
      var all := "/" + first + rest;
      assert first in segments && first[|first| - 1] in first;
      assert forall s <- segments[1..] :: s in segments;
      SlashedEnds(segments[1..]);
      assert rest != "" ==> all[|all| - 1] == rest[|rest| - 1];
      assert rest == "" ==> all[|all| - 1] == first[|first| - 1];
    }
  }

  /** The path of a key is the URL's segments, each after one slash. */
  lemma CleanPathIs(path: string)
    requires path != "" ==> path[0] == '/'
    ensures CleanPath(path) == Slashed(Segments(path))
  {
    var clean := Slashed(Segments(path));
    CollapsedPath(path);
    SlashedEnds(Segments(path));
    assert RStrip(clean, IsSlash) == clean;
    if LastSlash(path) == "/" {
      assert (clean + "/")[..|clean|] == clean;
    } else {
      assert clean + "" == clean;
    }
  }

  lemma {:induction false} SegmentsOfSlashed(segments: seq<string>)
    requires forall s <- segments :: s != "" && '/' !in s
    ensures Segments(Slashed(segments)) == segments
  {
    if segments != [] {
      var first, rest := segments[0], Slashed(segments[1..]);
      assert first in segments && first[0] in first;
      assert forall s <- segments[1..] :: s in segments;
      SegmentsOfSlashed(segments[1..]);
      SlashedStarts(segments[1..]);
      FirstSegment(first, rest);
      assert segments == [first] + segments[1..];
    }
  }

  lemma SlashedStarts(segments: seq<string>)
    ensures Slashed(segments) != "" ==> Slashed(segments)[0] == '/'
  { }

  lemma FindSlash(first: string, rest: string)
    requires '/' !in first && (rest != "" ==> rest[0] == '/')
    ensures Find(first + rest, '/') == |first|
  {
    FindAfter(first, rest, '/');
  }

  lemma Cut(first: string, rest: string)
    ensures (first + rest)[..|first|] == first && (first + rest)[|first|..] == rest
  { }

  lemma FirstSegment(first: string, rest: string)
    requires first != "" && '/' !in first && (rest != "" ==> rest[0] == '/')
    ensures Segments("/" + first + rest) == [first] + Segments(rest)
  {
    var path, after := "/" + first + rest, first + rest;
    assert path[0] == '/' && path[1..] == after;
    assert after[0] == first[0] && first[0] in first;
    FindSlash(first, rest);
    Cut(first, rest);
    assert Segments(path) == Segments(after);
  }

  /** So two paths clean to one exactly if they have the same segments. */
  lemma SamePathIff(p: string, q: string)
    requires (p != "" ==> p[0] == '/') && (q != "" ==> q[0] == '/')
    ensures CleanPath(p) == CleanPath(q) <==> Segments(p) == Segments(q)
  {
    CleanPathIs(p);
    CleanPathIs(q);
    SegmentsOfSlashed(Segments(p));
    SegmentsOfSlashed(Segments(q));
  }

  // ---- Hosts ----

  function Dots(n: nat): string {
    seq(n, _ => '.')
  }

  /** The host of a key: the one text without a dot at its end that the lower-case host is, but for dots after it. */
  lemma HostIs(written: string, host: string)
    ensures RStrip(Listings.Lower(written), IsDot) == host <==>
            && (host == "" || host[|host| - 1] != '.')
            && exists n: nat :: Listings.Lower(written) == host + Dots(n)
  {
    var lower := Listings.Lower(written);
    DotsStripped(lower);
    var kept := RStrip(lower, IsDot);
    assert lower == kept + Dots(|lower| - |kept|);
    if (host == "" || host[|host| - 1] != '.') && exists n: nat :: lower == host + Dots(n) {
      var n: nat :| lower == host + Dots(n);
      StripDots(host, n);
    }
  }

  lemma {:induction false} DotsStripped(s: string)
    ensures s == RStrip(s, IsDot) + Dots(|s| - |RStrip(s, IsDot)|)
  {
    if s != "" && IsDot(s[|s| - 1]) {
      DotsStripped(s[..|s| - 1]);
      assert s == s[..|s| - 1] + ".";
    }
  }

  lemma {:induction false} StripDots(host: string, n: nat)
    requires host == "" || host[|host| - 1] != '.'
    ensures RStrip(host + Dots(n), IsDot) == host
  {
    if n > 0 {
      assert (host + Dots(n))[..|host| + n - 1] == host + Dots(n - 1);
      StripDots(host, n - 1);
    } else {
      assert host + Dots(0) == host;
    }
  }

  // ---- A URL as it is written ----

  /** The pieces of a URL. An IPv6 host is told by its colons and written in brackets; "" is no port. */
  datatype Written = Written(
    scheme: string, user: Option<string>, host: string, port: string, path: string, query: string,
    fragment: Option<string>)

  function UserPart(user: Option<string>): string {
    if user.Some? then user.value + "@" else ""
  }

  function FragmentPart(fragment: Option<string>): string {
    if fragment.Some? then "#" + fragment.value else ""
  }

  function HostPart(w: Written): string {
    Bracketed(w.host) + WithPort(w.port)
  }

  function Text(w: Written): string {
    w.scheme + ":" + ("//" + ((UserPart(w.user) + HostPart(w)) + (w.path + (Tail(w.query) + FragmentPart(w.fragment)))))
  }

  /** No piece holds what would end it, and the port is a port. */
  predicate Proper(ip6: string -> bool, w: Written) {
    && IsScheme(w.scheme) && Readable(ip6, w.host) && AllInAuthority(w.host)
    && (w.user.Some? ==> forall c <- w.user.value :: !EndsAuthority(c) && c != '[' && c != ']' && !IsUnsafe(c))
    && IsDigits(w.port) && (w.port != "" ==> Number(w.port) <= 65535)
    && (w.path != "" ==> w.path[0] == '/') && (forall c <- w.path :: c != '?' && c != '#' && !IsUnsafe(c))
    && (forall c <- w.query :: c != '#' && !IsUnsafe(c))
    && (w.fragment.Some? ==> forall c <- w.fragment.value :: !IsUnsafe(c))
  }

  lemma UserFrom(user: string, rest: string, i: nat)
    requires i <= |user|
    ensures (user + "@" + rest)[i..] == user[i..] + "@" + rest
    ensures (user + "@" + rest)[|user| + 1..] == rest
  { }

  lemma AtIsIn(user: string, rest: string)
    ensures '@' in user + "@" + rest && Find(user + "@" + rest, '@') <= |user|
  {
    var s := user + "@" + rest;
    assert s[|user|] == '@';
    FindFirst(s, '@', |user|);
  }

  lemma {:induction false} AfterLastAt(user: string, rest: string)
    requires '@' !in rest
    ensures AfterLast(user + "@" + rest, '@') == rest
    decreases |user|
  {
    var s := user + "@" + rest;
    var i := Find(s, '@');
    AtIsIn(user, rest);
    UserFrom(user, rest, 0);
    if i < |user| {
      UserFrom(user, rest, i + 1);
      AfterLastAt(user[i + 1..], rest);
    } else {
      assert AfterLast(rest, '@') == rest;
    }
  }

  lemma {:induction false} FindFirst(s: string, c: char, i: nat)
    requires i < |s| && s[i] == c
    ensures Find(s, c) <= i
  {
    if i > 0 && s[0] != c { FindFirst(s[1..], c, i - 1); }
  }

  /** User information changes neither the host nor the port that are read. */
  lemma UserIsIgnored(user: Option<string>, rest: string)
    requires '@' !in rest
    ensures HostInfo(UserPart(user) + rest) == HostInfo(rest)
  {
    if user.Some? {
      AfterLastAt(user.value, rest);
      assert UserPart(user) + rest == user.value + "@" + rest;
    } else {
      assert UserPart(user) + rest == rest;
    }
  }

  lemma HostPartChars(ip6: string -> bool, w: Written)
    requires Proper(ip6, w)
    ensures AllInAuthority(HostPart(w)) && '@' !in HostPart(w)
  {
    JoinedAuthority(w.host, w.port);
  }

  lemma {:induction false} FindAfter(pre: string, s: string, c: char)
    requires c !in pre
    ensures Find(pre + s, c) == |pre| + Find(s, c)
  {
    if pre == "" {
      assert pre + s == s;
    } else {
      assert pre[0] in pre && (pre + s)[1..] == pre[1..] + s;
      FindAfter(pre[1..], s, c);
    }
  }

  lemma InEither(pre: string, rest: string, c: char)
    ensures c in pre + rest <==> c in pre || c in rest
  { }

  lemma FromBracket(pre: string, rest: string)
    requires '[' !in pre
    ensures var at := Find(pre + rest, '[');
            at == |pre| + Find(rest, '[') && (pre + rest)[at..] == rest[Find(rest, '[')..]
  {
    FindAfter(pre, rest, '[');
  }

  /** Nor do brackets come in with it. */
  lemma BracketsAfterUser(ip6: string -> bool, pre: string, rest: string)
    requires '[' !in pre && ']' !in pre
    ensures BracketsOk(ip6, pre + rest) <==> BracketsOk(ip6, rest)
  {
    InEither(pre, rest, '[');
    InEither(pre, rest, ']');
    FromBracket(pre, rest);
  }

  lemma HostPartBrackets(ip6: string -> bool, w: Written)
    requires Proper(ip6, w)
    ensures BracketsOk(ip6, UserPart(w.user) + HostPart(w))
  {
    if ':' in w.host { BracketedIsOk(ip6, w.host, w.port); } else { BareIsOk(ip6, w.host, w.port); }
    BracketsAfterUser(ip6, UserPart(w.user), HostPart(w));
  }

  lemma HostPartReads(ip6: string -> bool, w: Written)
    requires Proper(ip6, w)
    ensures HostInfo(UserPart(w.user) + HostPart(w)) == (w.host, w.port)
  {
    HostPartChars(ip6, w);
    UserIsIgnored(w.user, HostPart(w));
    assert '@' !in w.host;
    InfoReads(w.host, w.port);
  }

  lemma HashSplits(scheme: string, a: string, rest: string, fragment: string)
    requires '#' !in rest
    ensures SplitPath(scheme, a, rest + "#" + fragment) == SplitPath(scheme, a, rest)
  {
    FindIn(rest, '#', fragment);
    assert (rest + "#" + fragment)[..|rest|] == rest;
    FindNone(rest, '#');
    assert rest[..|rest|] == rest;
  }

  lemma FragmentText(p: string, q: string, fragment: Option<string>)
    ensures p + (Tail(q) + FragmentPart(fragment)) ==
            if fragment.Some? then p + Tail(q) + "#" + fragment.value else p + Tail(q)
  { }

  /** A fragment is cut off before anything else is read of the rest. */
  lemma FragmentIsCut(scheme: string, a: string, p: string, q: string, fragment: Option<string>)
    requires (forall c <- p :: c != '?' && c != '#') && '#' !in q
    ensures SplitPath(scheme, a, p + (Tail(q) + FragmentPart(fragment))) == Split5(scheme, a, p, q)
  {
    FragmentText(p, q, fragment);
    assert forall i :: 0 <= i < |p| ==> p[i] in p;
    PathEnds(scheme, a, p, q);
    if fragment.Some? {
      assert '#' !in p + Tail(q);
      HashSplits(scheme, a, p + Tail(q), fragment.value);
    }
  }

  lemma RestReads(ip6: string -> bool, scheme: string, a: string, w: Written)
    requires Proper(ip6, w) && (forall i :: 0 <= i < |a| ==> !EndsAuthority(a[i])) && BracketsOk(ip6, a)
    ensures SplitRest(ip6, scheme, "//" + (a + (w.path + (Tail(w.query) + FragmentPart(w.fragment))))) ==
            Ok(Split5(scheme, a, w.path, w.query))
  {
    var tail := w.path + (Tail(w.query) + FragmentPart(w.fragment));
    var rest := a + tail;
    assert ("//" + rest)[..2] == "//" && ("//" + rest)[2..] == rest;
    TailStarts(w.path, w.query, w.fragment);
    AuthorityEnds(a, tail);
    assert rest[..|a|] == a && rest[|a|..] == tail;
    FragmentIsCut(scheme, a, w.path, w.query, w.fragment);
  }

  lemma TailStarts(p: string, q: string, fragment: Option<string>)
    requires p != "" ==> p[0] == '/'
    ensures var tail := p + (Tail(q) + FragmentPart(fragment)); tail != "" ==> EndsAuthority(tail[0])
  { }

  lemma SchemeReads(ip6: string -> bool, u: string, scheme: string, rest: string)
    requires IsScheme(scheme) && u == scheme + ":" + rest && forall c <- u :: !IsUnsafe(c)
    ensures UrlSplit(ip6, u) == SplitRest(ip6, Listings.Lower(scheme), rest)
  {
    assert u[0] == scheme[0];
    RemoveNone(u, IsUnsafe);
    FindIn(scheme, ':', rest);
    assert u[..|scheme|] == scheme && u[|scheme| + 1..] == rest;
  }

  lemma AuthorityOf(ip6: string -> bool, w: Written)
    requires Proper(ip6, w)
    ensures var a := UserPart(w.user) + HostPart(w);
            forall i :: 0 <= i < |a| ==> !EndsAuthority(a[i]) && !IsUnsafe(a[i])
  {
    HostPartChars(ip6, w);
    var pre, rest := UserPart(w.user), HostPart(w);
    forall i | 0 <= i < |pre + rest| ensures !EndsAuthority((pre + rest)[i]) && !IsUnsafe((pre + rest)[i]) {
      if i < |pre| {
        assert (pre + rest)[i] == pre[i];
        assert i < |w.user.value| ==> pre[i] == w.user.value[i] && w.user.value[i] in w.user.value;
      } else {
        assert (pre + rest)[i] == rest[i - |pre|];
      }
    }
  }

  lemma TextIsClean(ip6: string -> bool, w: Written)
    requires Proper(ip6, w)
    ensures forall c <- Text(w) :: !IsUnsafe(c)
  {
    AuthorityOf(ip6, w);
    var a := UserPart(w.user) + HostPart(w);
    forall c <- Text(w) ensures !IsUnsafe(c) {
      assert c in w.scheme || c == ':' || c == '/' || c in a || c in w.path || c in Tail(w.query)
          || c in FragmentPart(w.fragment);
    }
  }

  /** What a written URL splits into. */
  lemma TextSplits(ip6: string -> bool, w: Written)
    requires Proper(ip6, w)
    ensures UrlSplit(ip6, Text(w)) ==
            Ok(Split5(Listings.Lower(w.scheme), UserPart(w.user) + HostPart(w), w.path, w.query))
  {
    var a := UserPart(w.user) + HostPart(w);
    TextIsClean(ip6, w);
    SchemeReads(ip6, Text(w), w.scheme, "//" + (a + (w.path + (Tail(w.query) + FragmentPart(w.fragment)))));
    AuthorityOf(ip6, w);
    HostPartBrackets(ip6, w);
    RestReads(ip6, Listings.Lower(w.scheme), a, w);
  }

  /** The port a request to the URL goes to: the one written, else 443 for https, 80 for http, else none. */
  function PortOf(w: Written): Option<nat>
    requires IsDigits(w.port)
  {
    if w.port != "" then Some(Number(w.port))
    else if Listings.Lower(w.scheme) == "https" then Some(443)
    else if Listings.Lower(w.scheme) == "http" then Some(80)
    else None
  }

  lemma PortIs(scheme: string, w: Written)
    requires IsDigits(w.port) && (w.port != "" ==> Number(w.port) <= 65535) && scheme == Listings.Lower(w.scheme)
    ensures ReadPort(w.port).Ok?
    ensures (if ReadPort(w.port).value.Some? then ReadPort(w.port).value else DefaultPort(scheme)) == PortOf(w)
  { }

  lemma ServiceOf(parts: Split5, host: string, w: Written)
    requires HostInfo(parts.netloc) == (host, w.port) && parts.scheme == Listings.Lower(w.scheme)
    requires IsDigits(w.port) && (w.port != "" ==> Number(w.port) <= 65535)
    ensures ReadService(parts) == Ok(Service(parts.scheme, RStrip(Listings.Lower(host), IsDot), PortOf(w),
                                             CleanPath(parts.path), ParseQuery(parts.query)))
  {
    PortIs(parts.scheme, w);
  }

  lemma TextReads(ip6: string -> bool, w: Written)
    requires Proper(ip6, w)
    ensures Read(ip6, Text(w)) ==
            Ok(Service(Listings.Lower(w.scheme), RStrip(Listings.Lower(w.host), IsDot), PortOf(w), CleanPath(w.path),
                       ParseQuery(w.query)))
  {
    TextSplits(ip6, w);
    HostPartReads(ip6, w);
    ServiceOf(UrlSplit(ip6, Text(w)).value, w.host, w);
  }

  /**
   Two URLs have one key exactly if their schemes agree in lower case, their hosts too but for dots at the
   end, requests go to one port, their paths have the same segments, and their queries the same pairs in
   any order. User information, fragments and white space around the URL make no difference.
   */
  lemma SameKeyIff(ip6: string -> bool, url: string, w: Written, other: string, v: Written)
    requires Proper(ip6, w) && Strip(url) == Text(w) && Proper(ip6, v) && Strip(other) == Text(v)
    requires w.host != "" && v.host != ""
    ensures Normalize(ip6, url).Ok? && Normalize(ip6, other).Ok?
    ensures Normalize(ip6, url) == Normalize(ip6, other) <==>
            && Listings.Lower(w.scheme) == Listings.Lower(v.scheme)
            && RStrip(Listings.Lower(w.host), IsDot) == RStrip(Listings.Lower(v.host), IsDot)
            && PortOf(w) == PortOf(v)
            && Segments(w.path) == Segments(v.path)
            && multiset(ParseQuery(w.query)) == multiset(ParseQuery(v.query))
  {
    TextSplits(ip6, w);
    TextSplits(ip6, v);
    TextReads(ip6, w);
    TextReads(ip6, v);
    assert HostPart(w) != "" && HostPart(v) != "";
    SamePathIff(w.path, v.path);
    SameKeyIffSameService(ip6, url, other);
  }
}
