/**
 What a verdict on a signed request means, told from the requests alone: who signed it, when, and
 whether its wallet used its nonce before.
 */
module SignedRequests {
  import opened Wrappers
  import opened Listings
  import opened WalletAuth

  /** What the request asks for, as its signature must commit to it. */
  function Asked(a: Attempt): Signed {
    Signed(a.action, a.listingId, a.header.timestamp, a.header.nonce, a.digest)
  }

  /** The timestamp is within the maximum age of the clock, on either side. */
  predicate OnTime(cfg: Config, a: Attempt) {
    -cfg.maxAge <= (Truncate(a.wall) - a.header.timestamp) as real <= cfg.maxAge
  }

  /** The signature is one, over this very request. */
  predicate IsSigned(cfg: Config, a: Attempt) {
    cfg.recover(BuildMessage(Asked(a)), a.header.signature).Some?
  }

  /** And it was made by the wallet the request needs. */
  predicate IsSignedByExpected(cfg: Config, a: Attempt) {
    IsSigned(cfg, a) && Lower(cfg.recover(BuildMessage(Asked(a)), a.header.signature).value) == Lower(a.expected)
  }

  predicate SameWalletAndNonce(a: Attempt, b: Attempt) {
    Lower(a.expected) == Lower(b.expected) && a.header.nonce == b.header.nonce
  }

  /** The request got as far as using up its nonce. */
  predicate UsedItsNonce(v: Verdict) {
    v == Accepted || v == InvalidSignature || v == WrongSigner
  }

  /** At most two maximum ages earlier a request used the same nonce for the same wallet. */
  ghost predicate NonceIsUsed(cfg: Config, attempts: seq<Attempt>, vs: seq<Verdict>, i: nat)
    requires |vs| == |attempts| && i < |attempts|
  {
    exists j :: 0 <= j < i && SameWalletAndNonce(attempts[j], attempts[i]) && UsedItsNonce(vs[j])
                && attempts[i].monotonic - attempts[j].monotonic <= 2.0 * cfg.maxAge
  }

  ghost predicate MonotonicOrder(attempts: seq<Attempt>) {
    forall i, j :: 0 <= i < j < |attempts| ==> attempts[i].monotonic <= attempts[j].monotonic
  }

  // ---- The nonce table along a run ----

  /** The nonce table when attempt `n` comes. */
  function TableAt(cfg: Config, seen: map<Key, real>, attempts: seq<Attempt>, n: nat): map<Key, real>
    requires n <= |attempts|
  {
    if n == 0 then seen else Verify(cfg, TableAt(cfg, seen, attempts, n - 1), attempts[n - 1]).0
  }

  lemma {:induction false} TableLater(cfg: Config, seen: map<Key, real>, attempts: seq<Attempt>, n: nat)
    requires 0 < n <= |attempts|
    ensures TableAt(cfg, seen, attempts, n)
         == TableAt(cfg, Verify(cfg, seen, attempts[0]).0, attempts[1..], n - 1)
  {
    if n > 1 { TableLater(cfg, seen, attempts, n - 1); }
  }

  /** The verdict when the table is this one. */
  function VerdictOn(cfg: Config, table: map<Key, real>, a: Attempt): Verdict {
    Verify(cfg, table, a).1
  }

  lemma VerdictsStart(cfg: Config, seen: map<Key, real>, attempts: seq<Attempt>)
    requires attempts != []
    ensures Verdicts(cfg, seen, attempts) ==
            [VerdictOn(cfg, seen, attempts[0])] + Verdicts(cfg, TableAt(cfg, seen, attempts, 1), attempts[1..])
  {
    assert TableAt(cfg, seen, attempts, 0) == seen;
  }

  lemma TableFromSecond(cfg: Config, seen: map<Key, real>, attempts: seq<Attempt>, n: nat)
    requires 0 < n <= |attempts|
    ensures TableAt(cfg, seen, attempts, n) == TableAt(cfg, TableAt(cfg, seen, attempts, 1), attempts[1..], n - 1)
  {
    assert TableAt(cfg, seen, attempts, 0) == seen;
    TableLater(cfg, seen, attempts, n);
  }

  lemma {:induction false} VerdictAt(cfg: Config, seen: map<Key, real>, attempts: seq<Attempt>, i: nat)
    requires i < |attempts|
    ensures Verdicts(cfg, seen, attempts)[i] == VerdictOn(cfg, TableAt(cfg, seen, attempts, i), attempts[i])
    decreases |attempts|
  {
    VerdictsStart(cfg, seen, attempts);
    if i == 0 {
      assert TableAt(cfg, seen, attempts, 0) == seen;
    } else {
      TableFromSecond(cfg, seen, attempts, i);
      VerdictAt(cfg, TableAt(cfg, seen, attempts, 1), attempts[1..], i - 1);
    }
  }

  /** A remembered nonce was used by an earlier request, at the time remembered. */
  ghost predicate Remembers(table: map<Key, real>, attempts: seq<Attempt>, vs: seq<Verdict>, n: nat)
    requires |vs| == |attempts| && n <= |attempts|
  {
    forall k :: k in table ==>
      exists j :: 0 <= j < n && KeyOf(attempts[j]) == k && UsedItsNonce(vs[j]) && attempts[j].monotonic == table[k]
  }

  /** And a nonce used by one of them is remembered, as used then or later, until two maximum ages have passed. */
  ghost predicate Forgets(cfg: Config, table: map<Key, real>, attempts: seq<Attempt>, vs: seq<Verdict>, n: nat)
    requires |vs| == |attempts| && n <= |attempts|
  {
    forall j, i :: 0 <= j < n <= i < |attempts| && UsedItsNonce(vs[j])
                   && attempts[i].monotonic - attempts[j].monotonic <= 2.0 * cfg.maxAge ==>
      KeyOf(attempts[j]) in table && attempts[j].monotonic <= table[KeyOf(attempts[j])]
  }

  lemma RemembersMore(cfg: Config, table: map<Key, real>, attempts: seq<Attempt>, vs: seq<Verdict>, n: nat)
    requires |vs| == |attempts| && n < |attempts| && Remembers(table, attempts, vs, n)
    requires vs[n] == Verify(cfg, table, attempts[n]).1
    ensures Remembers(Verify(cfg, table, attempts[n]).0, attempts, vs, n + 1)
  {
    var after := Verify(cfg, table, attempts[n]).0;
    forall k | k in after
      ensures exists j :: 0 <= j < n + 1 && KeyOf(attempts[j]) == k && UsedItsNonce(vs[j])
                          && attempts[j].monotonic == after[k]
    {
      if k in table && after[k] == table[k] {
        var j :| 0 <= j < n && KeyOf(attempts[j]) == k && UsedItsNonce(vs[j]) && attempts[j].monotonic == table[k];
      } else {
        assert KeyOf(attempts[n]) == k && UsedItsNonce(vs[n]) && attempts[n].monotonic == after[k];
      }
    }
  }

  lemma ForgetsMore(cfg: Config, table: map<Key, real>, attempts: seq<Attempt>, vs: seq<Verdict>, n: nat)
    requires |vs| == |attempts| && n < |attempts| && Forgets(cfg, table, attempts, vs, n) && MonotonicOrder(attempts)
    requires vs[n] == Verify(cfg, table, attempts[n]).1
    ensures Forgets(cfg, Verify(cfg, table, attempts[n]).0, attempts, vs, n + 1)
  {
    var after := Verify(cfg, table, attempts[n]).0;
    forall j, i | 0 <= j < n + 1 <= i < |attempts| && UsedItsNonce(vs[j])
                  && attempts[i].monotonic - attempts[j].monotonic <= 2.0 * cfg.maxAge
      ensures KeyOf(attempts[j]) in after && attempts[j].monotonic <= after[KeyOf(attempts[j])]
    {
      assert attempts[n].monotonic <= attempts[i].monotonic;
      assert j < n ==> attempts[j].monotonic <= attempts[n].monotonic;
      if j < n { StillRemembered(cfg, table, attempts[j], attempts[n]); }
    }
  }

  /** One more request forgets no nonce that is young enough when it comes. */
  lemma StillRemembered(cfg: Config, table: map<Key, real>, first: Attempt, a: Attempt)
    requires KeyOf(first) in table && first.monotonic <= table[KeyOf(first)] && first.monotonic <= a.monotonic
    requires a.monotonic - first.monotonic <= 2.0 * cfg.maxAge
    ensures var after := Verify(cfg, table, a).0;
            KeyOf(first) in after && first.monotonic <= after[KeyOf(first)]
  {
    assert a.monotonic - table[KeyOf(first)] <= 2.0 * cfg.maxAge;
  }

  /** What the table holds when attempt `n` comes is what the verdicts before it tell. */
  ghost predicate Tells(cfg: Config, table: map<Key, real>, attempts: seq<Attempt>, vs: seq<Verdict>, n: nat)
    requires |vs| == |attempts| && n <= |attempts|
  {
    Remembers(table, attempts, vs, n) && Forgets(cfg, table, attempts, vs, n)
  }

  lemma TellsMore(cfg: Config, table: map<Key, real>, attempts: seq<Attempt>, vs: seq<Verdict>, n: nat)
    requires |vs| == |attempts| && n < |attempts| && Tells(cfg, table, attempts, vs, n) && MonotonicOrder(attempts)
    requires vs[n] == VerdictOn(cfg, table, attempts[n])
    ensures Tells(cfg, Verify(cfg, table, attempts[n]).0, attempts, vs, n + 1)
  {
    RemembersMore(cfg, table, attempts, vs, n);
    ForgetsMore(cfg, table, attempts, vs, n);
  }

  lemma NothingTold(cfg: Config, attempts: seq<Attempt>, vs: seq<Verdict>)
    requires |vs| == |attempts|
    ensures Tells(cfg, map[], attempts, vs, 0)
  { }

  lemma {:induction false} TableTells(cfg: Config, attempts: seq<Attempt>, n: nat)
    requires n <= |attempts| && MonotonicOrder(attempts)
    ensures Tells(cfg, TableAt(cfg, map[], attempts, n), attempts, Verdicts(cfg, map[], attempts), n)
  {
    var vs := Verdicts(cfg, map[], attempts);
    if n == 0 {
      NothingTold(cfg, attempts, vs);
    } else {
      TableTells(cfg, attempts, n - 1);
      VerdictAt(cfg, map[], attempts, n - 1);
      TellsMore(cfg, TableAt(cfg, map[], attempts, n - 1), attempts, vs, n - 1);
    }
  }

  /** So when a request comes, its nonce is refused exactly if it is used. */
  lemma KeptIffUsed(cfg: Config, attempts: seq<Attempt>, i: nat)
    requires i < |attempts| && MonotonicOrder(attempts)
    ensures KeyOf(attempts[i]) in Pruned(cfg, TableAt(cfg, map[], attempts, i), attempts[i].monotonic) <==>
            NonceIsUsed(cfg, attempts, Verdicts(cfg, map[], attempts), i)
  {
    var vs, table := Verdicts(cfg, map[], attempts), TableAt(cfg, map[], attempts, i);
    TableTells(cfg, attempts, i);
    var k := KeyOf(attempts[i]);
    if k in Pruned(cfg, table, attempts[i].monotonic) {
      var j :| 0 <= j < i && KeyOf(attempts[j]) == k && UsedItsNonce(vs[j]) && attempts[j].monotonic == table[k];
      assert SameWalletAndNonce(attempts[j], attempts[i]);
    }
    if NonceIsUsed(cfg, attempts, vs, i) {
      var j :| 0 <= j < i && SameWalletAndNonce(attempts[j], attempts[i]) && UsedItsNonce(vs[j])
               && attempts[i].monotonic - attempts[j].monotonic <= 2.0 * cfg.maxAge;
      assert KeyOf(attempts[j]) == k;
    }
  }

  // ---- Verdicts ----

  /**
   Every verdict, told from the requests alone: too old or too new, else a nonce the wallet used within
   two maximum ages, else no signature over this request, else another's signature, else accepted.
   */
  lemma VerdictsExact(cfg: Config, attempts: seq<Attempt>, i: nat)
    requires i < |attempts| && MonotonicOrder(attempts)
    ensures var a, vs := attempts[i], Verdicts(cfg, map[], attempts);
            && (vs[i] == Stale <==> !OnTime(cfg, a))
            && (vs[i] == Replayed <==> OnTime(cfg, a) && NonceIsUsed(cfg, attempts, vs, i))
            && (vs[i] == InvalidSignature <==>
                  OnTime(cfg, a) && !NonceIsUsed(cfg, attempts, vs, i) && !IsSigned(cfg, a))
            && (vs[i] == WrongSigner <==>
                  && OnTime(cfg, a) && !NonceIsUsed(cfg, attempts, vs, i)
                  && IsSigned(cfg, a) && !IsSignedByExpected(cfg, a))
            && (vs[i] == Accepted <==>
                  OnTime(cfg, a) && !NonceIsUsed(cfg, attempts, vs, i) && IsSignedByExpected(cfg, a))
  {
    VerdictAt(cfg, map[], attempts, i);
    KeptIffUsed(cfg, attempts, i);
  }

  /** Whatever the table held and however the clocks run: what is accepted was signed by the wallet it needs. */
  lemma AcceptedIsSigned(cfg: Config, seen: map<Key, real>, attempts: seq<Attempt>, i: nat)
    requires i < |attempts| && Verdicts(cfg, seen, attempts)[i] == Accepted
    ensures var a := attempts[i];
            var message := BuildMessage(Signed(a.action, a.listingId, a.header.timestamp, a.header.nonce, a.digest));
            var signer := cfg.recover(message, a.header.signature);
            signer.Some? && Lower(signer.value) == Lower(a.expected)
  {
    VerdictAt(cfg, seen, attempts, i);
  }

  /** The wallet is the signer of this signature over no message but the one. */
  ghost predicate SignedOnly(cfg: Config, signature: string, wallet: string, s: Signed) {
    forall m :: cfg.recover(m, signature).Some? && Lower(cfg.recover(m, signature).value) == Lower(wallet) ==>
      m == BuildMessage(s)
  }

  /** A signature a wallet made for one request gets no other request accepted in the wallet's name. */
  lemma SignatureVouchesForOneRequest(cfg: Config, seen: map<Key, real>, attempts: seq<Attempt>, i: nat, s: Signed)
    requires i < |attempts| && Verdicts(cfg, seen, attempts)[i] == Accepted
    requires SignedOnly(cfg, attempts[i].header.signature, attempts[i].expected, s)
    requires Proper(s) && Proper(Asked(attempts[i]))
    ensures attempts[i].action == s.action && attempts[i].listingId == s.listingId && attempts[i].digest == s.digest
    ensures attempts[i].header.timestamp == s.timestamp && attempts[i].header.nonce == s.nonce
  {
    AcceptedIsSigned(cfg, seen, attempts, i);
    MessageInjective(Asked(attempts[i]), s);
  }
}
