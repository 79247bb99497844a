/**
 Signed requests: the message a wallet signs, the timestamp window, and the self-expiring table of
 used nonces. ECDSA recovery and SHA-256 are parameters.
 */
module WalletAuth {
  import opened Wrappers
  import opened Listings
  import opened Texts

  datatype Action = UpdateListing | DeleteListing | HeartbeatListing | ClaimListing | RemoveImportedListing

  function Name(a: Action): string {
    match a
    case UpdateListing => "update-listing"
    case DeleteListing => "delete-listing"
    case HeartbeatListing => "heartbeat-listing"
    case ClaimListing => "claim-listing"
    case RemoveImportedListing => "remove-imported-listing"
  }

  predicate SignsBody(a: Action) {
    a.UpdateListing?
  }

  const DIGEST_LENGTH := 64

  /** What a signature commits to; `digest` is the hash of the request body, if there is one. */
  datatype Signed = Signed(action: Action, listingId: string, timestamp: int, nonce: string, digest: Option<string>)

  function Join(lines: seq<string>): string {
    if |lines| == 0 then "" else if |lines| == 1 then lines[0] else lines[0] + "\n" + Join(lines[1..])
  }

  function Lines(s: Signed): seq<string> {
    ["Agent Discovery Board", "action: " + Name(s.action), "listing_id: " + s.listingId,
     "timestamp: " + IntText(s.timestamp), "nonce: " + s.nonce]
    + if s.digest.Some? then ["body_sha256: " + s.digest.value] else []
  }

  function BuildMessage(s: Signed): string {
    Join(Lines(s))
  }

  ghost predicate OneLine(s: string) {
    '\n' !in s
  }

  /** The registered use of an action: a body exactly when the action signs one, and a one-line listing id. */
  ghost predicate Proper(s: Signed) {
    && OneLine(s.listingId)
    && (s.digest.Some? <==> SignsBody(s.action))
    && (s.digest.Some? ==> |s.digest.value| == DIGEST_LENGTH)
  }

  /** Text up to the first newline is determined by the whole. */
  lemma {:induction false} CutAtNewline(a: string, x: string, b: string, y: string)
    requires OneLine(a) && OneLine(b) && a + "\n" + x == b + "\n" + y
    ensures a == b && x == y
  {
    var s := a + "\n" + x;
    assert s[|a|] == '\n' && s[|b|] == '\n';
    assert forall i :: 0 <= i < |a| ==> s[i] == a[i];
    assert forall i :: 0 <= i < |b| ==> s[i] == b[i];
    assert |a| == |b|;
    assert a == s[..|a|] && b == s[..|b|] && x == s[|a| + 1..] && y == s[|b| + 1..];
  }

  /** Everything from the nonce on; the nonce itself may hold newlines. */
  function Tail(s: Signed): string {
    "nonce: " + s.nonce + if s.digest.Some? then "\nbody_sha256: " + s.digest.value else ""
  }

  function AfterListing(s: Signed): string {
    "timestamp: " + IntText(s.timestamp) + "\n" + Tail(s)
  }

  function AfterAction(s: Signed): string {
    "listing_id: " + s.listingId + "\n" + AfterListing(s)
  }

  function AfterTitle(s: Signed): string {
    "action: " + Name(s.action) + "\n" + AfterAction(s)
  }

  lemma MessageShape(s: Signed)
    ensures BuildMessage(s) == "Agent Discovery Board" + "\n" + AfterTitle(s)
  {
    var l := Lines(s);
    var l1, l2, l3, l4 := l[1..], l[2..], l[3..], l[4..];
    assert l1[1..] == l2 && l2[1..] == l3 && l3[1..] == l4;
    assert Join(l4) == Tail(s) by {
      if s.digest.Some? {
        assert l4[1..] == ["body_sha256: " + s.digest.value];
        assert Join(l4) == "nonce: " + s.nonce + "\n" + ("body_sha256: " + s.digest.value);
        assert "\n" + ("body_sha256: " + s.digest.value) == "\nbody_sha256: " + s.digest.value;
      }
    }
    assert Join(l3) == l3[0] + "\n" + Join(l4);
    assert Join(l2) == l2[0] + "\n" + Join(l3);
    assert Join(l1) == l1[0] + "\n" + Join(l2);
  }

  /** The text a wallet signs. */
  lemma MessageIs(s: Signed)
    ensures BuildMessage(s) ==
            "Agent Discovery Board" + "\n"
            + ("action: " + Name(s.action) + "\n"
               + ("listing_id: " + s.listingId + "\n"
                  + ("timestamp: " + IntText(s.timestamp) + "\n"
                     + ("nonce: " + s.nonce
                        + if s.digest.Some? then "\nbody_sha256: " + s.digest.value else ""))))
  {
    MessageShape(s);
  }

  lemma NamesDistinct(a: Action, b: Action)
    requires "action: " + Name(a) == "action: " + Name(b)
    ensures a == b
  {
    assert ("action: " + Name(a))[8..] == Name(a) && ("action: " + Name(b))[8..] == Name(b);
    assert |Name(UpdateListing)| == 14 && |Name(DeleteListing)| == 14;
    assert Name(UpdateListing)[0] == 'u' && Name(DeleteListing)[0] == 'd';
  }

  lemma SamePrefix(p: string, a: string, b: string)
    requires p + a == p + b
    ensures a == b
  {
    assert (p + a)[|p|..] == a && (p + b)[|p|..] == b;
  }

  lemma TailInjective(s: Signed, t: Signed)
    requires Proper(s) && Proper(t) && s.action == t.action && Tail(s) == Tail(t)
    ensures s.nonce == t.nonce && s.digest == t.digest
  {
    var p := "nonce: ";
    if SignsBody(s.action) {
      var e, f := "\nbody_sha256: " + s.digest.value, "\nbody_sha256: " + t.digest.value;
      var whole := Tail(s);
      assert whole == p + s.nonce + e && whole == p + t.nonce + f;
      assert |e| == |f|;
      assert whole[|whole| - |e|..] == e && whole[|whole| - |f|..] == f;
      assert whole[..|whole| - |e|] == p + s.nonce && whole[..|whole| - |f|] == p + t.nonce;
      SamePrefix("\nbody_sha256: ", s.digest.value, t.digest.value);
      SamePrefix(p, s.nonce, t.nonce);
    } else {
      assert Tail(s) == p + s.nonce && Tail(t) == p + t.nonce;
      SamePrefix(p, s.nonce, t.nonce);
    }
  }

  lemma AfterListingInjective(s: Signed, t: Signed)
    requires AfterListing(s) == AfterListing(t)
    ensures s.timestamp == t.timestamp && Tail(s) == Tail(t)
  {
    TextOneLine(s.timestamp);
    TextOneLine(t.timestamp);
    CutAtNewline("timestamp: " + IntText(s.timestamp), Tail(s), "timestamp: " + IntText(t.timestamp), Tail(t));
    SamePrefix("timestamp: ", IntText(s.timestamp), IntText(t.timestamp));
    IntReads(s.timestamp);
    IntReads(t.timestamp);
  }

  lemma AfterActionInjective(s: Signed, t: Signed)
    requires OneLine(s.listingId) && OneLine(t.listingId) && AfterAction(s) == AfterAction(t)
    ensures s.listingId == t.listingId && AfterListing(s) == AfterListing(t)
  {
    CutAtNewline("listing_id: " + s.listingId, AfterListing(s), "listing_id: " + t.listingId, AfterListing(t));
    SamePrefix("listing_id: ", s.listingId, t.listingId);
  }

  lemma NameOneLine(a: Action)
    ensures OneLine("action: " + Name(a))
  { }

  lemma AfterTitleInjective(s: Signed, t: Signed)
    requires AfterTitle(s) == AfterTitle(t)
    ensures s.action == t.action && AfterAction(s) == AfterAction(t)
  {
    NameOneLine(s.action);
    NameOneLine(t.action);
    CutAtNewline("action: " + Name(s.action), AfterAction(s), "action: " + Name(t.action), AfterAction(t));
    NamesDistinct(s.action, t.action);
  }

  lemma TitleInjective(s: Signed, t: Signed)
    requires BuildMessage(s) == BuildMessage(t)
    ensures s.action == t.action && AfterAction(s) == AfterAction(t)
  {
    MessageShape(s);
    MessageShape(t);
    SamePrefix("Agent Discovery Board" + "\n", AfterTitle(s), AfterTitle(t));
    AfterTitleInjective(s, t);
  }

  /** A signed message says exactly one thing, even when a nonce contains newlines. */
  lemma MessageInjective(s: Signed, t: Signed)
    requires Proper(s) && Proper(t) && BuildMessage(s) == BuildMessage(t)
    ensures s == t
  {
    TitleInjective(s, t);
    AfterActionInjective(s, t);
    AfterListingInjective(s, t);
    TailInjective(s, t);
  }

  lemma TextOneLine(n: int)
    ensures OneLine(IntText(n))
  {
    IntReads(n);
  }

  /** The premise about bodies is needed: a nonce can spell out a body line that was never there. */
  lemma NonceCanImitateBody(a: Action, id: string, timestamp: int, nonce: string, digest: string)
    ensures BuildMessage(Signed(a, id, timestamp, nonce, Some(digest))) ==
            BuildMessage(Signed(a, id, timestamp, nonce + "\nbody_sha256: " + digest, None))
  {
    var s, t := Signed(a, id, timestamp, nonce, Some(digest)),
                Signed(a, id, timestamp, nonce + "\nbody_sha256: " + digest, None);
    MessageShape(s);
    MessageShape(t);
    assert Tail(s) == Tail(t);
    assert AfterTitle(s) == AfterTitle(t);
  }

  // ---- Replay protection ----

  type Key = (string, string)

  datatype Header = Header(signature: string, timestamp: int, nonce: string)

  /** One request to be authenticated, with the readings of both clocks when it is handled. */
  datatype Attempt = Attempt(
    header: Header, action: Action, listingId: string, expected: string, digest: Option<string>,
    wall: real, monotonic: real)

  datatype Verdict = Accepted | Stale | Replayed | InvalidSignature | WrongSigner

  /** `recover` gives the address a signature over a message was made by, if it is a signature at all. */
  datatype Config = Config(maxAge: real, recover: (string, string) -> Option<string>)

  /** `int(x)` in Python. */
  function Truncate(x: real): int {
    if x >= 0.0 then x.Floor else -((-x).Floor)
  }

  function Abs(x: real): real {
    if x < 0.0 then -x else x
  }

  predicate InWindow(cfg: Config, a: Attempt) {
    Abs((Truncate(a.wall) - a.header.timestamp) as real) <= cfg.maxAge
  }

  function KeyOf(a: Attempt): Key {
    (Lower(a.expected), a.header.nonce)
  }

  function Pruned(cfg: Config, seen: map<Key, real>, now: real): map<Key, real> {
    map k | k in seen && now - seen[k] <= 2.0 * cfg.maxAge :: seen[k]
  }

  /** One authentication: the nonce table it leaves behind and the verdict. */
  function Verify(cfg: Config, seen: map<Key, real>, a: Attempt): (map<Key, real>, Verdict) {
    if !InWindow(cfg, a) then (seen, Stale)
    else
      var kept := Pruned(cfg, seen, a.monotonic);
      if KeyOf(a) in kept then (kept, Replayed)
      else
        var message := BuildMessage(Signed(a.action, a.listingId, a.header.timestamp, a.header.nonce, a.digest));
        var recovered := cfg.recover(message, a.header.signature);
        (kept[KeyOf(a) := a.monotonic],
         if recovered.None? then InvalidSignature
         else if Lower(recovered.value) != Lower(a.expected) then WrongSigner
         else Accepted)
  }

  class NonceTable {
    const cfg: Config
    var seen: map<Key, real>

    constructor (cfg: Config)
      ensures this.cfg == cfg && seen == map[]
    {
      this.cfg := cfg;
      seen := map[];
    }

    method PruneExpired(now: real)
      modifies this
      ensures seen == Pruned(cfg, old(seen), now)
    {
      var horizon := cfg.maxAge * 2.0;
      var items, done := seen, {};
      while done != items.Keys
        invariant done <= items.Keys
        invariant seen == map k | k in items && (k in done ==> now - items[k] <= horizon) :: items[k]
        decreases items.Keys - done
      {
        assert items.Keys - done != {};
        var key :| key in items.Keys - done;
        if now - items[key] > horizon {
          seen := seen - {key};
        }
        done := done + {key};
      }
    }

    /** True exactly when the (address, nonce) pair is not remembered; it is from now on. */
    method ClaimNonce(key: Key, now: real) returns (unused: bool)
      modifies this
      ensures unused <==> key !in Pruned(cfg, old(seen), now)
      ensures seen == if unused then Pruned(cfg, old(seen), now)[key := now] else Pruned(cfg, old(seen), now)
    {
      PruneExpired(now);
      if key in seen { return false; }
      seen := seen[key := now];
      return true;
    }

    /**
     The checks in their order, on the nonce table as it is. A nonce is used up by any request that gets
     past the first two, whoever signed it.
     */
    method VerifyWalletAuth(a: Attempt) returns (v: Verdict)
      modifies this
      ensures var key := (Lower(a.expected), a.header.nonce);
              var late := (Truncate(a.wall) - a.header.timestamp) as real;
              var used := key in old(seen) && a.monotonic - old(seen)[key] <= 2.0 * cfg.maxAge;
              var message := BuildMessage(Signed(a.action, a.listingId, a.header.timestamp, a.header.nonce, a.digest));
              var signer := cfg.recover(message, a.header.signature);
              && (v == Stale <==> late < -cfg.maxAge || late > cfg.maxAge)
              && (v == Replayed <==> v != Stale && used)
              && (v == InvalidSignature <==> v != Stale && !used && signer.None?)
              && (v == WrongSigner <==> v != Stale && !used && signer.Some? && Lower(signer.value) != key.0)
              && (v == Accepted <==> v != Stale && !used && signer.Some? && Lower(signer.value) == key.0)
      ensures (seen, v) == Verify(cfg, old(seen), a)
    {
      if Abs((Truncate(a.wall) - a.header.timestamp) as real) > cfg.maxAge { return Stale; }
      var unused := ClaimNonce((Lower(a.expected), a.header.nonce), a.monotonic);
      if !unused { return Replayed; }
      var message := BuildMessage(Signed(a.action, a.listingId, a.header.timestamp, a.header.nonce, a.digest));
      match cfg.recover(message, a.header.signature) {
        case None => return InvalidSignature;
        case Some(recovered) => return if Lower(recovered) != Lower(a.expected) then WrongSigner else Accepted;
      }
    }
  }

  /** The verdicts on a sequence of requests handled one after another. */
  function Verdicts(cfg: Config, seen: map<Key, real>, attempts: seq<Attempt>): (vs: seq<Verdict>)
    ensures |vs| == |attempts|
    decreases |attempts|
  {
    if attempts == [] then []
    else
      var (after, v) := Verify(cfg, seen, attempts[0]);
      [v] + Verdicts(cfg, after, attempts[1..])
  }

  /** Handled in clock order, both clocks running at the same rate and past the epoch. */
  ghost predicate OneClock(first: Attempt, later: seq<Attempt>) {
    && first.wall >= 0.0
    && (forall i :: 0 <= i < |later| ==>
          later[i].wall >= first.wall && later[i].wall - later[i].monotonic == first.wall - first.monotonic)
    && (forall i, j :: 0 <= i < j < |later| ==> later[i].wall <= later[j].wall)
  }

  /** The same header presented again for the same wallet. */
  predicate SameHeader(a: Attempt, b: Attempt) {
    KeyOf(a) == KeyOf(b) && a.header == b.header
  }

  /** The last instant the timestamp is fresh does not outlive the nonce's two-window memory. */
  predicate Protected(cfg: Config, a: Attempt) {
    a.wall + 2.0 * cfg.maxAge >= ((a.header.timestamp as real + cfg.maxAge).Floor + 1) as real
  }

  lemma FreshMeansEarly(cfg: Config, a: Attempt)
    requires a.wall >= 0.0 && InWindow(cfg, a)
    ensures a.wall < ((a.header.timestamp as real + cfg.maxAge).Floor + 1) as real
  {
    var latest := a.header.timestamp as real + cfg.maxAge;
    assert a.wall.Floor as real <= latest;
    assert a.wall.Floor <= latest.Floor;
  }

  /** While the memory lasts the nonce is remembered, whatever else is handled. */
  lemma {:induction false} NonceRemembered(cfg: Config, seen: map<Key, real>, first: Attempt, later: seq<Attempt>,
                                           i: nat)
    requires i < |later| && OneClock(first, later)
    requires KeyOf(first) in seen && seen[KeyOf(first)] == first.monotonic
    requires later[i].wall <= first.wall + 2.0 * cfg.maxAge && KeyOf(later[i]) == KeyOf(first)
    ensures Verdicts(cfg, seen, later)[i] in {Stale, Replayed}
    decreases |later|
  {
    var (after, v) := Verify(cfg, seen, later[0]);
    assert later[0].wall <= later[i].wall;
    assert KeyOf(first) in Pruned(cfg, seen, later[0].monotonic);
    if i > 0 {
      assert OneClock(first, later[1..]);
      NonceRemembered(cfg, after, first, later[1..], i - 1);
    }
  }

  lemma AcceptedIsRemembered(cfg: Config, seen: map<Key, real>, a: Attempt)
    requires Verify(cfg, seen, a).1 == Accepted
    ensures var after := Verify(cfg, seen, a).0; KeyOf(a) in after && after[KeyOf(a)] == a.monotonic
    ensures InWindow(cfg, a)
  {
  }

  lemma RememberedIsNotReplayed(cfg: Config, after: map<Key, real>, first: Attempt, later: seq<Attempt>, i: nat)
    requires KeyOf(first) in after && after[KeyOf(first)] == first.monotonic && Protected(cfg, first)
    requires OneClock(first, later) && i < |later| && SameHeader(first, later[i])
    ensures Verdicts(cfg, after, later)[i] in {Stale, Replayed}
  {
    if InWindow(cfg, later[i]) {
      FreshMeansEarly(cfg, later[i]);
      NonceRemembered(cfg, after, first, later, i);
    } else {
      StaleStaysStale(cfg, after, later, i);
    }
  }

  /** An accepted header that is protected is never accepted again, through any number of requests and prunings. */
  lemma NoReplay(cfg: Config, seen: map<Key, real>, first: Attempt, later: seq<Attempt>, i: nat)
    requires Verify(cfg, seen, first).1 == Accepted && Protected(cfg, first)
    requires OneClock(first, later) && i < |later| && SameHeader(first, later[i])
    ensures Verdicts(cfg, Verify(cfg, seen, first).0, later)[i] != Accepted
  {
    AcceptedIsRemembered(cfg, seen, first);
    RememberedIsNotReplayed(cfg, Verify(cfg, seen, first).0, first, later, i);
  }

  lemma {:induction false} StaleStaysStale(cfg: Config, seen: map<Key, real>, later: seq<Attempt>, i: nat)
    requires i < |later| && !InWindow(cfg, later[i])
    ensures Verdicts(cfg, seen, later)[i] == Stale
    decreases |later|
  {
    if i > 0 { StaleStaysStale(cfg, Verify(cfg, seen, later[0]).0, later[1..], i - 1); }
  }

  ghost predicate NeverAcceptedAgain(cfg: Config, seen: map<Key, real>, first: Attempt) {
    forall later: seq<Attempt>, i: nat :: OneClock(first, later) && i < |later| && SameHeader(first, later[i]) ==>
      Verdicts(cfg, Verify(cfg, seen, first).0, later)[i] != Accepted
  }

  /** The same header, handled `delay` seconds later. */
  function Again(a: Attempt, delay: real): Attempt {
    a.(wall := a.wall + delay, monotonic := a.monotonic + delay)
  }

  /** An accepted header is safe from replay over all later runs exactly when it is protected. */
  lemma ReplayProtectionExact(cfg: Config, seen: map<Key, real>, first: Attempt)
    requires Verify(cfg, seen, first).1 == Accepted && first.wall >= 0.0
    ensures NeverAcceptedAgain(cfg, seen, first) <==> Protected(cfg, first)
  {
    if Protected(cfg, first) {
      forall later: seq<Attempt>, i: nat | OneClock(first, later) && i < |later| && SameHeader(first, later[i])
        ensures Verdicts(cfg, Verify(cfg, seen, first).0, later)[i] != Accepted
      {
        NoReplay(cfg, seen, first, later, i);
      }
    } else {
      UnprotectedIsReplayed(cfg, seen, first);
    }
  }

  /** An instant after the nonce is forgotten and before the header is stale. */
  lemma InstantAfterForgetting(cfg: Config, first: Attempt) returns (delay: real)
    requires InWindow(cfg, first) && first.wall >= 0.0 && !Protected(cfg, first)
    ensures 2.0 * cfg.maxAge < delay && InWindow(cfg, Again(first, delay))
  {
    var latest := (first.header.timestamp as real + cfg.maxAge).Floor;
    var end := (latest + 1) as real;
    delay := (first.wall + 2.0 * cfg.maxAge + end) / 2.0 - first.wall;
    var wall := Again(first, delay).wall;
    assert 2.0 * cfg.maxAge < delay && wall < end;
    assert wall.Floor <= latest;
  }

  /** A fresh header whose nonce is forgotten is accepted once more. */
  lemma ForgottenIsAccepted(cfg: Config, seen: map<Key, real>, first: Attempt, delay: real)
    requires Verify(cfg, seen, first).1 == Accepted && 2.0 * cfg.maxAge < delay && InWindow(cfg, Again(first, delay))
    ensures Verify(cfg, Verify(cfg, seen, first).0, Again(first, delay)).1 == Accepted
  {
    var after, replay := Verify(cfg, seen, first).0, Again(first, delay);
    assert KeyOf(first) in after && after[KeyOf(first)] == first.monotonic;
    assert KeyOf(replay) !in Pruned(cfg, after, replay.monotonic);
  }

  lemma UnprotectedIsReplayed(cfg: Config, seen: map<Key, real>, first: Attempt)
    requires Verify(cfg, seen, first).1 == Accepted && first.wall >= 0.0 && !Protected(cfg, first)
    ensures !NeverAcceptedAgain(cfg, seen, first)
  {
    var delay := InstantAfterForgetting(cfg, first);
    var later := [Again(first, delay)];
    ForgottenIsAccepted(cfg, seen, first, delay);
    assert Verdicts(cfg, Verify(cfg, seen, first).0, later)[0] == Accepted;
    assert OneClock(first, later) && SameHeader(first, later[0]);
  }

  /** Such a header exists: accepted half a second into second 100 and dated 400, it is accepted again at 700.75. */
  lemma HalfASecondIsReplayed(a: Attempt)
    requires a.wall == a.monotonic == 100.5 && a.header.timestamp == 400
    ensures var cfg := Config(300.0, (m, s) => Some(a.expected));
            var replay := Again(a, 600.25);
            && Verify(cfg, map[], a).1 == Accepted && !Protected(cfg, a)
            && OneClock(a, [replay]) && SameHeader(a, replay)
            && Verify(cfg, Verify(cfg, map[], a).0, replay).1 == Accepted
  {
    var cfg, replay := Config(300.0, (m, s) => Some(a.expected)), Again(a, 600.25);
    assert Truncate(100.5) == 100 && Truncate(700.75) == 700;
    assert InWindow(cfg, a) && InWindow(cfg, replay);
    assert (400.0 + 300.0).Floor == 700;
    assert KeyOf(a) !in Pruned(cfg, Verify(cfg, map[], a).0, replay.monotonic);
  }

  /** A header dated at least a second inside the forward edge of the window is protected. */
  lemma OneSecondIsEnough(cfg: Config, a: Attempt)
    requires a.wall >= 0.0 && a.header.timestamp as real <= Truncate(a.wall) as real + cfg.maxAge - 1.0
    ensures Protected(cfg, a)
  {
    var latest := a.header.timestamp as real + cfg.maxAge;
    assert latest.Floor as real <= latest;
  }

  ghost predicate WholeTicks(a: Attempt) {
    a.wall == a.wall.Floor as real
  }

  /** On a clock of whole seconds every accepted header is safe: truncation is the only gap. */
  lemma NoReplayOnWholeTicks(cfg: Config, seen: map<Key, real>, first: Attempt, later: seq<Attempt>, i: nat)
    requires Verify(cfg, seen, first).1 == Accepted && WholeTicks(first)
    requires OneClock(first, later) && i < |later| && SameHeader(first, later[i]) && WholeTicks(later[i])
    ensures Verdicts(cfg, Verify(cfg, seen, first).0, later)[i] != Accepted
  {
    if InWindow(cfg, later[i]) {
      assert later[i].wall <= first.wall + 2.0 * cfg.maxAge;
      NonceRemembered(cfg, Verify(cfg, seen, first).0, first, later, i);
    } else {
      StaleStaysStale(cfg, Verify(cfg, seen, first).0, later, i);
    }
  }
}
