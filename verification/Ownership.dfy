/** Whose signature moves a listing: who can have removed it, and who owns it after a claim. */
module Ownership {
  import opened Wrappers
  import opened Listings
  import opened Statements
  import opened Database
  import opened Refusals
  import opened Lifecycle

  // ---- Every write was authorised when it was admitted ----

  /** Action `i` admitted the request, authorised by the listing as it was then. */
  ghost predicate AdmittedAt(norm: string -> string, base: Option<string>, actions: seq<Action>, i: nat,
                             ticket: Ticket) {
    i < |actions| && actions[i] == Admit(ticket) && Authorised(Run(norm, base, EMPTY, actions[..i]).rows, ticket)
  }

  lemma AdmittedBefore(norm: string -> string, base: Option<string>, actions: seq<Action>, i: nat, ticket: Ticket)
    requires |actions| > 0 && AdmittedAt(norm, base, actions[..|actions| - 1], i, ticket)
    ensures AdmittedAt(norm, base, actions, i, ticket)
  {
    assert actions[..|actions| - 1][..i] == actions[..i];
  }

  lemma {:induction false} TicketWasAdmitted(norm: string -> string, base: Option<string>, actions: seq<Action>,
                                             ticket: Ticket)
    requires CanRun(norm, base, EMPTY, actions) && ticket in Run(norm, base, EMPTY, actions).tickets
    ensures exists i: nat :: AdmittedAt(norm, base, actions, i, ticket)
  {
    var n := |actions| - 1;
    var s, a := Run(norm, base, EMPTY, actions[..n]), actions[n];
    if ticket in s.tickets {
      TicketWasAdmitted(norm, base, actions[..n], ticket);
      var i: nat :| AdmittedAt(norm, base, actions[..n], i, ticket);
      AdmittedBefore(norm, base, actions, i, ticket);
    } else {
      assert a == Admit(ticket);
      assert AdmittedAt(norm, base, actions, n, ticket);
    }
  }

  lemma {:induction false} CanRunPrefix(norm: string -> string, base: Option<string>, s: State, actions: seq<Action>,
                                        n: nat)
    requires CanRun(norm, base, s, actions) && n <= |actions|
    ensures CanRun(norm, base, s, actions[..n])
    decreases |actions|
  {
    if n < |actions| {
      CanRunPrefix(norm, base, s, actions[..|actions| - 1], n);
      assert actions[..|actions| - 1][..n] == actions[..n];
    } else {
      assert actions[..n] == actions;
    }
  }

  lemma NextState(norm: string -> string, base: Option<string>, actions: seq<Action>, n: nat)
    requires CanRun(norm, base, EMPTY, actions) && n < |actions|
    ensures var s := Run(norm, base, EMPTY, actions[..n]);
            && Good(norm, s) && Can(norm, s, actions[n])
            && Run(norm, base, EMPTY, actions[..n + 1]) == Next(norm, base, s, actions[n])
  {
    CanRunPrefix(norm, base, EMPTY, actions, n + 1);
    assert actions[..n + 1][..n] == actions[..n];
    EveryReachableStateIsGood(norm, base, actions[..n]);
  }

  // ---- Removal ----

  /** The request was admitted when the listing was there, imported, with this wallet as its payment wallet. */
  ghost predicate AdmittedByWallet(norm: string -> string, base: Option<string>, actions: seq<Action>, id: Id,
                                   wallet: string, i: nat) {
    && i < |actions| && actions[i] == Admit(Remove(id, wallet)) && wallet != PLACEHOLDER
    && var t := Run(norm, base, EMPTY, actions[..i]).rows;
       id in t && t[id].source.Some? && t[id].content.paymentWallet == wallet
  }

  /** Action `j` removed the listing on a signature that, when admitted, was its payment wallet's. */
  ghost predicate RemovedByItsWallet(norm: string -> string, base: Option<string>, actions: seq<Action>, id: Id,
                                     j: nat) {
    && j < |actions| && actions[j].Commit? && actions[j].ticket.Remove? && actions[j].ticket.id == id
    && exists i: nat :: i < j && AdmittedByWallet(norm, base, actions, id, actions[j].ticket.wallet, i)
  }

  lemma RemovalWasAdmitted(norm: string -> string, base: Option<string>, actions: seq<Action>, id: Id, j: nat)
    requires CanRun(norm, base, EMPTY, actions) && j < |actions|
    requires actions[j].Commit? && actions[j].ticket.Remove? && actions[j].ticket.id == id
    ensures RemovedByItsWallet(norm, base, actions, id, j)
  {
    NextState(norm, base, actions, j);
    CanRunPrefix(norm, base, EMPTY, actions, j);
    TicketWasAdmitted(norm, base, actions[..j], actions[j].ticket);
    var i: nat :| AdmittedAt(norm, base, actions[..j], i, actions[j].ticket);
    assert actions[..j][..i] == actions[..i] && actions[..j][i] == actions[i];
    assert AdmittedByWallet(norm, base, actions, id, actions[j].ticket.wallet, i);
  }

  /**
   A real listing that was there after `m` actions and is not at the end was removed in between, on
   a signature of the wallet that was its payment wallet when the request was admitted.
   */
  lemma {:induction false} RealListingsLeaveOnlyByRemoval(norm: string -> string, base: Option<string>,
                                                          actions: seq<Action>, m: nat, id: Id)
    returns (j: nat)
    requires CanRun(norm, base, EMPTY, actions) && m <= |actions|
    requires var s := Run(norm, base, EMPTY, actions[..m]); id in s.rows && !s.rows[id].isTest
    requires id !in Run(norm, base, EMPTY, actions).rows
    ensures m <= j && RemovedByItsWallet(norm, base, actions, id, j)
    decreases |actions| - m
  {
    assert actions[..|actions|] == actions;
    var s := Run(norm, base, EMPTY, actions[..m]);
    NextState(norm, base, actions, m);
    StepSparesReal(norm, base, s, actions[m], id);
    StepKeepsRows(norm, base, s, actions[m]);
    if id in Next(norm, base, s, actions[m]).rows {
      j := RealListingsLeaveOnlyByRemoval(norm, base, actions, m + 1, id);
    } else {
      j := m;
      RemovalWasAdmitted(norm, base, actions, id, j);
    }
  }

  // ---- Claims ----

  /** The action is a sync's upsert for the endpoint this listing was imported from. */
  ghost predicate Resyncs(norm: string -> string, t: Table, id: Id, a: Action) {
    a.Upsert? && id in t && At(t, id, KeyOf(norm, a.row))
  }

  predicate SameListing(row: Row, after: Row) {
    after.content == row.content && after.source == row.source && after.endpointKey == row.endpointKey
  }

  lemma CommitLeavesUnclaimed(norm: string -> string, s: State, ticket: Ticket, now: Time, id: Id)
    requires id in s.rows && (OwnerTicket(ticket) && ticket.id in s.rows ==> s.rows[ticket.id].claimed)
    requires id in Committed(norm, s, ticket, now).rows && !Committed(norm, s, ticket, now).rows[id].claimed
    ensures SameListing(s.rows[id], Committed(norm, s, ticket, now).rows[id])
  { }

  lemma UpsertLeavesOthers(norm: string -> string, base: Option<string>, t: Table, r: ImportRow, id: Id)
    requires SourceUnique(t) && r.id !in t && id in t && !At(t, id, KeyOf(norm, r))
    ensures id in Upserted(norm, base, t, r) && Upserted(norm, base, t, r)[id] == t[id]
  {
    UpsertEffect(norm, base, t, r);
    UpsertKeys(norm, base, t, r);
  }

  /** While a listing is unclaimed only a re-sync moves what it says. */
  lemma UnclaimedStays(norm: string -> string, base: Option<string>, s: State, a: Action, id: Id)
    requires Good(norm, s) && Can(norm, s, a) && id in s.rows && !Resyncs(norm, s.rows, id, a)
    requires id in Next(norm, base, s, a).rows && !Next(norm, base, s, a).rows[id].claimed
    ensures SameListing(s.rows[id], Next(norm, base, s, a).rows[id])
  {
    if a.Commit? {
      CommitLeavesUnclaimed(norm, s.(tickets := s.tickets - multiset{a.ticket}), a.ticket, a.now, id);
    } else if a.Upsert? {
      UpsertLeavesOthers(norm, base, s.rows, a.row, id);
    }
  }

  lemma {:induction false} UnclaimedStaysAlong(norm: string -> string, base: Option<string>, s: State,
                                               actions: seq<Action>, id: Id)
    requires Good(norm, s) && CanRun(norm, base, s, actions) && id in s.rows
    requires forall a <- actions :: !Resyncs(norm, s.rows, id, a)
    requires id in Run(norm, base, s, actions).rows && !Run(norm, base, s, actions).rows[id].claimed
    ensures SameListing(s.rows[id], Run(norm, base, s, actions).rows[id])
  {
    if |actions| != 0 {
      var n := |actions| - 1;
      var mid := Run(norm, base, s, actions[..n]);
      ListingsContinue(norm, base, s, actions[..n]);
      RunKeepsGood(norm, base, s, actions[..n]);
      StepKeepsRows(norm, base, mid, actions[n]);
      assert id in mid.rows;
      assert Succeeds(mid.rows[id], Next(norm, base, mid, actions[n]).rows[id]);
      assert forall a <- actions[..n] :: a in actions;
      UnclaimedStaysAlong(norm, base, s, actions[..n], id);
      assert actions[n] in actions;
      UnclaimedStays(norm, base, mid, actions[n], id);
    }
  }

  /** The claim takes effect. */
  ghost predicate Lands(norm: string -> string, s: State, id: Id, wallet: string, now: Time) {
    Claimable(s.rows, id) && Claimed(s.rows, id, wallet, now)[id].claimed
  }

  /**
   A claim makes the owner the wallet that was the listing's payment wallet when the request was
   admitted in `s`. It is still the payment wallet exactly if that is what it was, and it is if no
   re-sync of the listing came in between.
   */
  lemma ClaimGivesTheAdmittedWallet(norm: string -> string, base: Option<string>, s: State, actions: seq<Action>,
                                    id: Id, wallet: string, now: Time)
    requires Good(norm, s) && Authorised(s.rows, Claim(id, wallet)) && CanRun(norm, base, s, actions)
    requires Claim(id, wallet) in Run(norm, base, s, actions).tickets
    requires Lands(norm, Run(norm, base, s, actions), id, wallet, now)
    ensures var before := Run(norm, base, s, actions);
            var after := Next(norm, base, before, Commit(Claim(id, wallet), now));
            && id in after.rows && after.rows[id].claimed
            && after.rows[id].submittedBy == s.rows[id].content.paymentWallet
            && after.rows[id].content == before.rows[id].content
            && (after.rows[id].submittedBy == after.rows[id].content.paymentWallet <==>
                  before.rows[id].content.paymentWallet == s.rows[id].content.paymentWallet)
            && ((forall a <- actions :: !Resyncs(norm, s.rows, id, a)) ==>
                  after.rows[id].submittedBy == after.rows[id].content.paymentWallet)
  {
    var before := Run(norm, base, s, actions);
    if forall a <- actions :: !Resyncs(norm, s.rows, id, a) {
      UnclaimedStaysAlong(norm, base, s, actions, id);
    }
  }

  // ---- A claim that outlives the wallet ----

  function OnlyRow(id: Id, row: Row): Table {
    map[id := row]
  }

  lemma OneRowIndexOk(id: Id, row: Row)
    ensures IndexOk(OnlyRow(id, row))
  { }

  lemma ResyncAlone(norm: string -> string, base: Option<string>, id: Id, row: Row, r: ImportRow)
    requires At(OnlyRow(id, row), id, KeyOf(norm, r))
    ensures UpsertOk(norm, base, OnlyRow(id, row), r)
    ensures Upserted(norm, base, OnlyRow(id, row), r) == OnlyRow(id, RefreshedRow(base, id, row, r.content, r.at))
  {
    OneRowIndexOk(id, row);
    UpsertIs(norm, base, OnlyRow(id, row), r, id);
    OneRowIndexOk(id, RefreshedRow(base, id, row, r.content, r.at));
    assert OnlyRow(id, row)[id := RefreshedRow(base, id, row, r.content, r.at)]
        == OnlyRow(id, RefreshedRow(base, id, row, r.content, r.at));
    assert Known(OnlyRow(id, row), KeyOf(norm, r));
  }

  /** The board with one imported listing, a claim of it admitted, and these rows planned. */
  function Waiting(norm: string -> string, base: Option<string>, r: ImportRow, planned: set<ImportRow>): State {
    State(OnlyRow(r.id, FreshRow(norm, base, r.id, r.content, r.source, r.at)), {}, {r.id},
          multiset{Claim(r.id, r.content.paymentWallet)}, planned, [], map[])
  }

  lemma ClaimWaits(norm: string -> string, base: Option<string>, r: ImportRow, q: ImportRow)
    requires r.content.paymentWallet != PLACEHOLDER && q.id != r.id
    ensures Leads(norm, base, [Plan({r}), Upsert(r), Admit(Claim(r.id, r.content.paymentWallet)), Plan({q})],
                  Waiting(norm, base, r, {q}))
  {
    var row := FreshRow(norm, base, r.id, r.content, r.source, r.at);
    var s := EMPTY.(rows := OnlyRow(r.id, row), born := {r.id});
    var claim := Admit(Claim(r.id, r.content.paymentWallet));
    Imported(norm, base, r);
    LeadsOn(norm, base, [Plan({r}), Upsert(r)], s, claim);
    assert [Plan({r}), Upsert(r)] + [claim] == [Plan({r}), Upsert(r), claim];
    assert Next(norm, base, s, claim) == Waiting(norm, base, r, {});
    LeadsOn(norm, base, [Plan({r}), Upsert(r), claim], Waiting(norm, base, r, {}), Plan({q}));
    assert [Plan({r}), Upsert(r), claim] + [Plan({q})] == [Plan({r}), Upsert(r), claim, Plan({q})];
    assert {} + {q} == {q};
  }

  /**
   From the empty board: a listing is imported, its claim is admitted, a sync gives it another payment
   wallet, and the claim still lands, for the wallet that is no longer the listing's.
   */
  lemma ClaimOutlivesTheWallet(norm: string -> string, base: Option<string>, r: ImportRow, q: ImportRow, now: Time)
    requires q.id != r.id && KeyOf(norm, q) == KeyOf(norm, r)
    requires r.content.paymentWallet != PLACEHOLDER && q.content.paymentWallet != r.content.paymentWallet
    ensures var wallet := r.content.paymentWallet;
            var actions := [Plan({r}), Upsert(r), Admit(Claim(r.id, wallet)), Plan({q})] + [Upsert(q)]
                           + [Commit(Claim(r.id, wallet), now)];
            var s := Run(norm, base, EMPTY, actions);
            && CanRun(norm, base, EMPTY, actions) && r.id in s.rows && s.rows[r.id].claimed
            && s.rows[r.id].submittedBy == wallet && s.rows[r.id].content.paymentWallet == q.content.paymentWallet
  {
    var claim := Claim(r.id, r.content.paymentWallet);
    var row := FreshRow(norm, base, r.id, r.content, r.source, r.at);
    var begin := [Plan({r}), Upsert(r), Admit(claim), Plan({q})];
    ClaimWaits(norm, base, r, q);
    LeadsOn(norm, base, begin, Waiting(norm, base, r, {q}), Upsert(q));
    ResyncAlone(norm, base, r.id, row, q);
    var refreshed := RefreshedRow(base, r.id, row, q.content, q.at);
    var s := Next(norm, base, Waiting(norm, base, r, {q}), Upsert(q));
    assert s.rows == OnlyRow(r.id, refreshed) && claim in s.tickets;
    LeadsOn(norm, base, begin + [Upsert(q)], s, Commit(claim, now));
    OneRowIndexOk(r.id, ClaimedRow(refreshed, r.content.paymentWallet, now));
    assert OnlyRow(r.id, refreshed)[r.id := ClaimedRow(refreshed, r.content.paymentWallet, now)]
        == OnlyRow(r.id, ClaimedRow(refreshed, r.content.paymentWallet, now));
  }
}
