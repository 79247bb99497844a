/**
 The life of listings under routes, sync and purge running side by side. A signed route reads a
 listing, checks the signature against what it read, and writes later; a sync plans, and writes its
 rows later. Every statement is one step, and any step may come between any others.
 */
module Lifecycle {
  import opened Wrappers
  import opened Listings
  import opened Statements
  import opened Database
  import opened Refusals

  /** A signed request that has been read and authorised, and still has its write to make. */
  datatype Ticket =
    | Edit(id: Id, patch: Patch)
    | Deactivate(id: Id)
    | Beat(id: Id)
    | Claim(id: Id, wallet: string)
    | Remove(id: Id, wallet: string)

  /**
   `born` is every id ever inserted, `planned` the rows of plans still to be upserted, `claims` and
   `beats` what succeeded so far, oldest first.
   */
  datatype State = State(
    rows: Table, doNotImport: set<SourceKey>, born: set<Id>, tickets: multiset<Ticket>,
    planned: set<ImportRow>, claims: seq<Id>, beats: map<Id, seq<Time>>)

  const EMPTY := State(map[], {}, {}, multiset{}, {}, [], map[])

  datatype Action =
    | Create(id: Id, content: Content, owner: string, isTest: bool, now: Time)
    | Admit(ticket: Ticket)
    | Commit(ticket: Ticket, now: Time)
    | Plan(batch: set<ImportRow>)
    | Upsert(row: ImportRow)
    | MarkMissing(source: string, seen: set<string>, now: Time)
    | Purge(gone: set<Id>, cutoff: Time, limit: nat)

  // ---- Steps ----

  function Organic(norm: string -> string, c: Content, owner: string, isTest: bool, now: Time): Row {
    Row(c, norm(c.endpointUrl), owner, Active, isTest, now, now, None, true, None, None, None, None)
  }

  /** No signature recovers to the placeholder, so no request is authorised by it. */
  predicate Authorised(t: Table, ticket: Ticket) {
    && ticket.id in t
    && var row := t[ticket.id];
       match ticket
       case Edit(_, _) => row.submittedBy != PLACEHOLDER
       case Deactivate(_) => row.submittedBy != PLACEHOLDER
       case Beat(_) => row.submittedBy != PLACEHOLDER && row.status.Active?
       case Claim(_, wallet) => !row.claimed && wallet == row.content.paymentWallet != PLACEHOLDER
       case Remove(_, wallet) => row.source.Some? && wallet == row.content.paymentWallet != PLACEHOLDER
  }

  ghost predicate FreshPlan(norm: string -> string, s: State, batch: set<ImportRow>) {
    && (forall r :: r in batch ==> KeyOf(norm, r) !in s.doNotImport && r.id !in s.born)
    && (forall r, p :: r in batch && p in batch + s.planned && r.id == p.id ==> r == p && r !in s.planned)
  }

  ghost predicate Can(norm: string -> string, s: State, a: Action) {
    match a
    case Create(id, _, _, _, _) => id !in s.born && forall p :: p in s.planned ==> p.id != id
    case Admit(ticket) => Authorised(s.rows, ticket)
    case Commit(ticket, _) => ticket in s.tickets
    case Plan(batch) => FreshPlan(norm, s, batch)
    case Upsert(row) => row in s.planned
    case MarkMissing(_, _, _) => true
    case Purge(gone, cutoff, limit) => IsPurge(s.rows, gone, cutoff, limit)
  }

  function BeatsOf(s: State, id: Id): seq<Time> {
    if id in s.beats then s.beats[id] else []
  }

  function Committed(norm: string -> string, s: State, ticket: Ticket, now: Time): State {
    var t := s.rows;
    match ticket
    case Edit(id, patch) => s.(rows := Updated(norm, t, id, patch, now))
    case Deactivate(id) => s.(rows := Updated(norm, t, id, NO_PATCH.(status := Some(Inactive)), now))
    case Beat(id) =>
      var cutoff := now - HEARTBEAT_MIN_INTERVAL;
      s.(rows := Beaten(t, id, now, cutoff),
         beats := if MayBeat(t, id, cutoff) then s.beats[id := BeatsOf(s, id) + [now]] else s.beats)
    case Claim(id, wallet) =>
      var after := Claimed(t, id, wallet, now);
      s.(rows := after, claims := if Claimable(t, id) && after[id].claimed then s.claims + [id] else s.claims)
    case Remove(id, _) =>
      if Removable(t, id)
      then s.(rows := t - {id}, doNotImport := s.doNotImport + {(t[id].source.value, norm(t[id].content.endpointUrl))})
      else s
  }

  ghost function Next(norm: string -> string, base: Option<string>, s: State, a: Action): State {
    match a
    case Create(id, content, owner, isTest, now) =>
      s.(rows := Inserted(s.rows, id, Organic(norm, content, owner, isTest, now)), born := s.born + {id})
    case Admit(ticket) => s.(tickets := s.tickets + multiset{ticket})
    case Commit(ticket, now) => Committed(norm, s.(tickets := s.tickets - multiset{ticket}), ticket, now)
    case Plan(batch) => s.(planned := s.planned + batch)
    case Upsert(row) =>
      s.(rows := if UpsertOk(norm, base, s.rows, row) then Upserted(norm, base, s.rows, row) else s.rows,
         born := s.born + {row.id}, planned := s.planned - {row})
    case MarkMissing(source, seen, now) => s.(rows := Marked(s.rows, source, seen, now))
    case Purge(gone, _, _) => s.(rows := s.rows - gone)
  }

  ghost function Run(norm: string -> string, base: Option<string>, s: State, actions: seq<Action>): State {
    if |actions| == 0 then s
    else Next(norm, base, Run(norm, base, s, actions[..|actions| - 1]), actions[|actions| - 1])
  }

  ghost predicate CanRun(norm: string -> string, base: Option<string>, s: State, actions: seq<Action>) {
    |actions| != 0 ==>
      var n := |actions| - 1;
      CanRun(norm, base, s, actions[..n]) && Can(norm, Run(norm, base, s, actions[..n]), actions[n])
  }

  // ---- What every step keeps ----

  /** An unclaimed listing is as the import made it, and a key is always its URL's. */
  predicate RowOk(norm: string -> string, row: Row) {
    && row.endpointKey == norm(row.content.endpointUrl)
    && (!row.claimed ==>
          row.source.Some? && row.status.Active? && row.lastSeenAt.None? && row.submittedBy == PLACEHOLDER
          && !row.isTest)
  }

  ghost predicate RowsOk(norm: string -> string, t: Table) {
    IndexOk(t) && forall id :: id in t ==> RowOk(norm, t[id])
  }

  predicate OwnerTicket(ticket: Ticket) {
    ticket.Edit? || ticket.Deactivate? || ticket.Beat?
  }

  /** Only listings that exist are written to, and the owner's requests only reach claimed ones. */
  ghost predicate TicketsOk(s: State) {
    forall k :: k in s.tickets ==> k.id in s.born && (OwnerTicket(k) && k.id in s.rows ==> s.rows[k.id].claimed)
  }

  /** No listing is claimed twice. */
  ghost predicate ClaimsOk(s: State) {
    && (forall i, j :: 0 <= i < j < |s.claims| ==> s.claims[i] != s.claims[j])
    && (forall id :: id in s.claims ==> id in s.born && (id in s.rows ==> s.rows[id].claimed))
  }

  ghost predicate Spaced(beats: seq<Time>) {
    forall i, j :: 0 <= i < j < |beats| ==> beats[i] + HEARTBEAT_MIN_INTERVAL <= beats[j]
  }

  /** Heartbeats are a day apart, and a listing shows its latest. */
  ghost predicate BeatsOk(s: State) {
    && (forall id :: id in s.beats ==> id in s.born && |s.beats[id]| > 0 && Spaced(s.beats[id]))
    && (forall id :: id in s.rows ==>
          s.rows[id].lastSeenAt == if id in s.beats then Some(s.beats[id][|s.beats[id]| - 1]) else None)
  }

  ghost predicate IdsOk(s: State) {
    && s.rows.Keys <= s.born
    && (forall p :: p in s.planned ==> p.id !in s.born)
    && (forall p, q :: p in s.planned && q in s.planned && p.id == q.id ==> p == q)
  }

  ghost predicate Good(norm: string -> string, s: State) {
    RowsOk(norm, s.rows) && IdsOk(s) && TicketsOk(s) && ClaimsOk(s) && BeatsOk(s)
  }

  /** What one step may do to one listing: the columns that never move, and those only an owner moves. */
  predicate Succeeds(row: Row, after: Row) {
    && after.isTest == row.isTest && after.createdAt == row.createdAt && after.source == row.source
    && (row.claimed ==> after.claimed)
  }

  /** Ids stay with their listings, and a listing never goes back to unclaimed. */
  ghost predicate Continues(t: Table, after: Table, born: set<Id>) {
    && (forall id :: id in t && id in after ==> Succeeds(t[id], after[id]))
    && (forall id :: id in after && id !in t ==> id !in born)
  }

  lemma RefreshKeepsRow(norm: string -> string, base: Option<string>, id: Id, row: Row, c: Content, at: Time)
    requires RowOk(norm, row) && norm(c.endpointUrl) == row.endpointKey
    ensures var after := RefreshedRow(base, id, row, c, at);
            RowOk(norm, after) && Succeeds(row, after) && after.lastSeenAt == row.lastSeenAt
            && (row.claimed ==> SameButSync(row, after))
  { }

  /** What an upsert may leave at one id. */
  lemma UpsertAt(norm: string -> string, base: Option<string>, t: Table, r: ImportRow, id: Id)
    requires SourceUnique(t) && id in Upserted(norm, base, t, r) && (id in t ==> RowOk(norm, t[id])) && r.id !in t
    ensures var row := Upserted(norm, base, t, r)[id];
            && RowOk(norm, row)
            && (id in t ==> Succeeds(t[id], row) && row.lastSeenAt == t[id].lastSeenAt)
            && (id in t && t[id].claimed ==> SameButSync(t[id], row))
            && (id !in t ==> id == r.id && row.lastSeenAt.None?)
  {
    UpsertEffect(norm, base, t, r);
    UpsertKeys(norm, base, t, r);
    if id in t {
      RefreshKeepsRow(norm, base, id, t[id], if At(t, id, KeyOf(norm, r)) then r.content else t[id].content, r.at);
    }
  }

  /** No row's heartbeat moves, and new rows have none. */
  ghost predicate KeepsSeen(t: Table, after: Table) {
    forall id :: id in after ==> after[id].lastSeenAt == if id in t then t[id].lastSeenAt else None
  }

  lemma UpsertKeepsRows(norm: string -> string, base: Option<string>, t: Table, r: ImportRow, born: set<Id>)
    requires RowsOk(norm, t) && t.Keys <= born && r.id !in born && UpsertOk(norm, base, t, r)
    ensures RowsOk(norm, Upserted(norm, base, t, r)) && Continues(t, Upserted(norm, base, t, r), born)
    ensures Upserted(norm, base, t, r).Keys <= t.Keys + {r.id} && KeepsSeen(t, Upserted(norm, base, t, r))
  {
    UpsertKeys(norm, base, t, r);
    forall id | id in Upserted(norm, base, t, r)
      ensures var row := Upserted(norm, base, t, r)[id];
              && RowOk(norm, row)
              && (id in t ==> Succeeds(t[id], row) && row.lastSeenAt == t[id].lastSeenAt)
              && (id !in t ==> id == r.id && row.lastSeenAt.None?)
    {
      UpsertAt(norm, base, t, r, id);
    }
  }

  lemma MarkKeepsRows(norm: string -> string, t: Table, source: string, seen: set<string>, now: Time, born: set<Id>)
    requires RowsOk(norm, t)
    ensures RowsOk(norm, Marked(t, source, seen, now)) && Continues(t, Marked(t, source, seen, now), born)
  {
    MarkKeepsIndexes(t, source, seen, now);
  }

  lemma GuardedWrite(norm: string -> string, t: Table, id: Id, row: Row, born: set<Id>)
    requires RowsOk(norm, t) && id in t && RowOk(norm, row) && Succeeds(t[id], row)
    ensures var after := Guard(t, t[id := row]);
            RowsOk(norm, after) && Continues(t, after, born) && after.Keys == t.Keys
  { }

  lemma EditKeepsRows(norm: string -> string, t: Table, id: Id, patch: Patch, now: Time, born: set<Id>)
    requires RowsOk(norm, t) && (id in t ==> t[id].claimed)
    ensures var after := Updated(norm, t, id, patch, now);
            RowsOk(norm, after) && Continues(t, after, born) && after.Keys == t.Keys
  {
    if id in t { GuardedWrite(norm, t, id, PatchedRow(norm, t[id], patch, now), born); }
  }

  lemma BeatKeepsRows(norm: string -> string, t: Table, id: Id, now: Time, cutoff: Time, born: set<Id>)
    requires RowsOk(norm, t) && (id in t ==> t[id].claimed)
    ensures var after := Beaten(t, id, now, cutoff);
            RowsOk(norm, after) && Continues(t, after, born) && after.Keys == t.Keys
  {
    if id in t { GuardedWrite(norm, t, id, t[id].(lastSeenAt := Some(now)), born); }
  }

  lemma ClaimKeepsRows(norm: string -> string, t: Table, id: Id, wallet: string, now: Time, born: set<Id>)
    requires RowsOk(norm, t)
    ensures var after := Claimed(t, id, wallet, now);
            RowsOk(norm, after) && Continues(t, after, born) && after.Keys == t.Keys
  {
    if Claimable(t, id) { GuardedWrite(norm, t, id, ClaimedRow(t[id], wallet, now), born); }
  }

  lemma FewerRowsKeep(norm: string -> string, t: Table, gone: set<Id>, born: set<Id>)
    requires RowsOk(norm, t)
    ensures RowsOk(norm, t - gone) && Continues(t, t - gone, born) && (t - gone).Keys <= t.Keys
  { }

  lemma CommitKeepsRows(norm: string -> string, s: State, ticket: Ticket, now: Time)
    requires RowsOk(norm, s.rows) && (OwnerTicket(ticket) && ticket.id in s.rows ==> s.rows[ticket.id].claimed)
    ensures var s' := Committed(norm, s, ticket, now);
            RowsOk(norm, s'.rows) && Continues(s.rows, s'.rows, s.born) && s'.rows.Keys <= s.rows.Keys
  {
    match ticket
    case Edit(id, patch) => EditKeepsRows(norm, s.rows, id, patch, now, s.born);
    case Deactivate(id) => EditKeepsRows(norm, s.rows, id, NO_PATCH.(status := Some(Inactive)), now, s.born);
    case Beat(id) => BeatKeepsRows(norm, s.rows, id, now, now - HEARTBEAT_MIN_INTERVAL, s.born);
    case Claim(id, wallet) => ClaimKeepsRows(norm, s.rows, id, wallet, now, s.born);
    case Remove(id, _) => FewerRowsKeep(norm, s.rows, {id}, s.born);
  }

  lemma CreateKeepsRows(norm: string -> string, t: Table, id: Id, row: Row, born: set<Id>)
    requires RowsOk(norm, t) && id !in born && RowOk(norm, row)
    ensures RowsOk(norm, Inserted(t, id, row)) && Continues(t, Inserted(t, id, row), born)
  { }

  /** The row part of every step. */
  lemma StepKeepsRows(norm: string -> string, base: Option<string>, s: State, a: Action)
    requires RowsOk(norm, s.rows) && IdsOk(s) && Can(norm, s, a)
    requires a.Commit? && OwnerTicket(a.ticket) && a.ticket.id in s.rows ==> s.rows[a.ticket.id].claimed
    ensures var s' := Next(norm, base, s, a);
            RowsOk(norm, s'.rows) && Continues(s.rows, s'.rows, s.born) && s.born <= s'.born
            && s'.rows.Keys <= s'.born
  {
    match a
    case Create(id, content, owner, isTest, now) =>
      CreateKeepsRows(norm, s.rows, id, Organic(norm, content, owner, isTest, now), s.born);
    case Admit(_) =>
    case Commit(ticket, now) =>
      CommitKeepsRows(norm, s.(tickets := s.tickets - multiset{ticket}), ticket, now);
    case Plan(_) =>
    case Upsert(row) =>
      if UpsertOk(norm, base, s.rows, row) { UpsertKeepsRows(norm, base, s.rows, row, s.born); }
    case MarkMissing(source, seen, now) =>
      MarkKeepsRows(norm, s.rows, source, seen, now, s.born);
    case Purge(gone, _, _) =>
      FewerRowsKeep(norm, s.rows, gone, s.born);
  }

  lemma StepKeepsTickets(norm: string -> string, base: Option<string>, s: State, a: Action)
    requires Good(norm, s) && Can(norm, s, a)
    ensures TicketsOk(Next(norm, base, s, a))
  {
    StepKeepsRows(norm, base, s, a);
    var s' := Next(norm, base, s, a);
    forall k | k in s'.tickets
      ensures k.id in s'.born && (OwnerTicket(k) && k.id in s'.rows ==> s'.rows[k.id].claimed)
    {
      if k in s.tickets {
        assert k.id in s'.rows ==> k.id in s.rows && Succeeds(s.rows[k.id], s'.rows[k.id]);
      } else {
        assert RowOk(norm, s.rows[k.id]);
      }
    }
  }

  lemma ClaimsStay(s: State, s': State)
    requires ClaimsOk(s) && Continues(s.rows, s'.rows, s.born) && s.born <= s'.born && s'.claims == s.claims
    ensures ClaimsOk(s')
  {
    forall id | id in s'.claims ensures id in s'.born && (id in s'.rows ==> s'.rows[id].claimed) {
      assert id in s'.rows ==> id in s.rows && Succeeds(s.rows[id], s'.rows[id]);
    }
  }

  lemma ClaimOnce(norm: string -> string, s: State, id: Id, wallet: string, now: Time)
    requires ClaimsOk(s) && s.rows.Keys <= s.born
    ensures ClaimsOk(Committed(norm, s, Claim(id, wallet), now))
  { }

  lemma StepKeepsClaims(norm: string -> string, base: Option<string>, s: State, a: Action)
    requires Good(norm, s) && Can(norm, s, a)
    ensures ClaimsOk(Next(norm, base, s, a))
  {
    if a.Commit? && a.ticket.Claim? {
      ClaimOnce(norm, s.(tickets := s.tickets - multiset{a.ticket}), a.ticket.id, a.ticket.wallet, a.now);
    } else {
      StepKeepsRows(norm, base, s, a);
      ClaimsStay(s, Next(norm, base, s, a));
    }
  }

  lemma StepKeepsIds(norm: string -> string, base: Option<string>, s: State, a: Action)
    requires Good(norm, s) && Can(norm, s, a)
    ensures IdsOk(Next(norm, base, s, a))
  {
    StepKeepsRows(norm, base, s, a);
  }

  lemma BeatsStay(s: State, s': State)
    requires BeatsOk(s) && KeepsSeen(s.rows, s'.rows) && s'.beats == s.beats && s.born <= s'.born
    requires forall id :: id in s'.rows && id !in s.rows ==> id !in s.born
    ensures BeatsOk(s')
  {
    forall id | id in s'.rows
      ensures s'.rows[id].lastSeenAt == if id in s'.beats then Some(s'.beats[id][|s'.beats[id]| - 1]) else None
    {
      assert id !in s.rows ==> id !in s.beats;
    }
  }

  lemma SpacedOneMore(beats: seq<Time>, now: Time)
    requires Spaced(beats) && (|beats| > 0 ==> beats[|beats| - 1] + HEARTBEAT_MIN_INTERVAL <= now)
    ensures Spaced(beats + [now])
  {
    forall i | 0 <= i < |beats| ensures beats[i] + HEARTBEAT_MIN_INTERVAL <= now {
      assert i < |beats| - 1 ==> beats[i] + HEARTBEAT_MIN_INTERVAL <= beats[|beats| - 1];
    }
  }

  lemma BeatLands(norm: string -> string, s: State, id: Id, now: Time)
    requires IndexOk(s.rows) && BeatsOk(s) && id in s.born && MayBeat(s.rows, id, now - HEARTBEAT_MIN_INTERVAL)
    ensures BeatsOk(Committed(norm, s, Beat(id), now))
  {
    BeatKeepsIndexes(s.rows, id, now);
    SpacedOneMore(BeatsOf(s, id), now);
    var beats := BeatsOf(s, id) + [now];
    assert Committed(norm, s, Beat(id), now)
        == s.(rows := s.rows[id := s.rows[id].(lastSeenAt := Some(now))], beats := s.beats[id := beats]);
    BeatsWith(s, id, beats, now);
  }

  lemma BeatsWith(s: State, id: Id, beats: seq<Time>, now: Time)
    requires BeatsOk(s) && id in s.born && id in s.rows && Spaced(beats) && |beats| > 0 && beats[|beats| - 1] == now
    ensures BeatsOk(s.(rows := s.rows[id := s.rows[id].(lastSeenAt := Some(now))], beats := s.beats[id := beats]))
  { }

  lemma CommitKeepsSeen(norm: string -> string, s: State, ticket: Ticket, now: Time)
    requires !(ticket.Beat? && MayBeat(s.rows, ticket.id, now - HEARTBEAT_MIN_INTERVAL))
    ensures var s' := Committed(norm, s, ticket, now);
            KeepsSeen(s.rows, s'.rows) && s'.beats == s.beats && s'.rows.Keys <= s.rows.Keys
  { }

  lemma CommitKeepsBeats(norm: string -> string, s: State, ticket: Ticket, now: Time)
    requires IndexOk(s.rows) && BeatsOk(s) && ticket.id in s.born
    ensures BeatsOk(Committed(norm, s, ticket, now))
  {
    if ticket.Beat? && MayBeat(s.rows, ticket.id, now - HEARTBEAT_MIN_INTERVAL) {
      BeatLands(norm, s, ticket.id, now);
    } else {
      CommitKeepsSeen(norm, s, ticket, now);
      BeatsStay(s, Committed(norm, s, ticket, now));
    }
  }

  lemma StepKeepsBeats(norm: string -> string, base: Option<string>, s: State, a: Action)
    requires Good(norm, s) && Can(norm, s, a)
    ensures BeatsOk(Next(norm, base, s, a))
  {
    if a.Commit? {
      CommitKeepsBeats(norm, s.(tickets := s.tickets - multiset{a.ticket}), a.ticket, a.now);
    } else {
      StepKeepsRows(norm, base, s, a);
      OtherStepsKeepSeen(norm, base, s, a);
      BeatsStay(s, Next(norm, base, s, a));
    }
  }

  lemma OtherStepsKeepSeen(norm: string -> string, base: Option<string>, s: State, a: Action)
    requires RowsOk(norm, s.rows) && IdsOk(s) && Can(norm, s, a) && !a.Commit?
    ensures KeepsSeen(s.rows, Next(norm, base, s, a).rows)
  {
    if a.Upsert? && UpsertOk(norm, base, s.rows, a.row) { UpsertKeepsRows(norm, base, s.rows, a.row, s.born); }
  }

  lemma StepKeepsGood(norm: string -> string, base: Option<string>, s: State, a: Action)
    requires Good(norm, s) && Can(norm, s, a)
    ensures Good(norm, Next(norm, base, s, a))
  {
    StepKeepsRows(norm, base, s, a);
    StepKeepsIds(norm, base, s, a);
    StepKeepsTickets(norm, base, s, a);
    StepKeepsClaims(norm, base, s, a);
    StepKeepsBeats(norm, base, s, a);
  }

  // ---- What whole runs keep ----

  lemma {:induction false} RunKeepsGood(norm: string -> string, base: Option<string>, s: State, actions: seq<Action>)
    requires Good(norm, s) && CanRun(norm, base, s, actions)
    ensures Good(norm, Run(norm, base, s, actions))
  {
    if |actions| != 0 {
      var n := |actions| - 1;
      RunKeepsGood(norm, base, s, actions[..n]);
      StepKeepsGood(norm, base, Run(norm, base, s, actions[..n]), actions[n]);
    }
  }

  /**
   In every interleaving: both indexes, every key its URL's, every unclaimed listing as imported,
   one claim each, heartbeats a day apart.
   */
  lemma EveryReachableStateIsGood(norm: string -> string, base: Option<string>, actions: seq<Action>)
    requires CanRun(norm, base, EMPTY, actions)
    ensures Good(norm, Run(norm, base, EMPTY, actions))
  {
    RunKeepsGood(norm, base, EMPTY, actions);
  }

  /** Whatever happens, a listing keeps its scope, its origin and its owner's claim for as long as it is there. */
  lemma {:induction false} ListingsContinue(norm: string -> string, base: Option<string>, s: State,
                                            actions: seq<Action>)
    requires Good(norm, s) && CanRun(norm, base, s, actions)
    ensures var s' := Run(norm, base, s, actions);
            Continues(s.rows, s'.rows, s.born) && s.born <= s'.born
  {
    if |actions| != 0 {
      var n := |actions| - 1;
      var mid := Run(norm, base, s, actions[..n]);
      ListingsContinue(norm, base, s, actions[..n]);
      RunKeepsGood(norm, base, s, actions[..n]);
      StepKeepsRows(norm, base, mid, actions[n]);
      var s' := Run(norm, base, s, actions);
      forall id | id in s.rows && id in s'.rows ensures Succeeds(s.rows[id], s'.rows[id]) {
        assert id in mid.rows && Succeeds(s.rows[id], mid.rows[id]) && Succeeds(mid.rows[id], s'.rows[id]);
      }
    }
  }

  predicate SyncStep(a: Action) {
    a.Plan? || a.Upsert? || a.MarkMissing?
  }

  /** But for when it was last synced and since when it is missing. */
  predicate SameButSync(row: Row, after: Row) {
    after == row.(lastSyncedAt := after.lastSyncedAt, missingSince := after.missingSince)
  }

  lemma UpsertSparesClaimed(norm: string -> string, base: Option<string>, t: Table, r: ImportRow, id: Id)
    requires RowsOk(norm, t) && r.id !in t && id in t && t[id].claimed
    ensures id in Upserted(norm, base, t, r) && SameButSync(t[id], Upserted(norm, base, t, r)[id])
  {
    UpsertKeys(norm, base, t, r);
    UpsertAt(norm, base, t, r, id);
  }

  lemma MarkSparesAll(t: Table, source: string, seen: set<string>, now: Time, id: Id)
    requires id in t
    ensures id in Marked(t, source, seen, now) && SameButSync(t[id], Marked(t, source, seen, now)[id])
  { }

  lemma SyncStepSparesClaimed(norm: string -> string, base: Option<string>, s: State, a: Action, id: Id)
    requires RowsOk(norm, s.rows) && IdsOk(s) && Can(norm, s, a) && SyncStep(a)
    requires id in s.rows && s.rows[id].claimed
    ensures id in Next(norm, base, s, a).rows && SameButSync(s.rows[id], Next(norm, base, s, a).rows[id])
  {
    match a
    case Upsert(row) => UpsertSparesClaimed(norm, base, s.rows, row, id);
    case MarkMissing(source, seen, now) => MarkSparesAll(s.rows, source, seen, now, id);
    case Plan(_) =>
  }

  /** Once a listing is claimed, syncing, even by plans made before, moves only its freshness. */
  lemma {:induction false} SyncSparesClaimed(norm: string -> string, base: Option<string>, s: State,
                                             actions: seq<Action>, id: Id)
    requires Good(norm, s) && CanRun(norm, base, s, actions) && forall a <- actions :: SyncStep(a)
    requires id in s.rows && s.rows[id].claimed
    ensures id in Run(norm, base, s, actions).rows && SameButSync(s.rows[id], Run(norm, base, s, actions).rows[id])
  {
    if |actions| != 0 {
      var n := |actions| - 1;
      SyncSparesClaimed(norm, base, s, actions[..n], id);
      RunKeepsGood(norm, base, s, actions[..n]);
      SyncStepSparesClaimed(norm, base, Run(norm, base, s, actions[..n]), actions[n], id);
    }
  }

  /** A purge deletes test listings older than the cutoff and nothing else. */
  lemma PurgeSparesRealListings(norm: string -> string, base: Option<string>, s: State, gone: set<Id>, cutoff: Time,
                                limit: nat)
    requires Can(norm, s, Purge(gone, cutoff, limit))
    ensures var s' := Next(norm, base, s, Purge(gone, cutoff, limit));
            forall id :: id in s.rows && (!s.rows[id].isTest || s.rows[id].createdAt >= cutoff) ==>
              id in s'.rows && s'.rows[id] == s.rows[id]
  { }

  lemma CommitSparesRows(norm: string -> string, s: State, ticket: Ticket, now: Time, id: Id)
    requires id in s.rows
    ensures id in Committed(norm, s, ticket, now).rows || (ticket.Remove? && ticket.id == id)
  { }

  lemma StepSparesReal(norm: string -> string, base: Option<string>, s: State, a: Action, id: Id)
    requires Can(norm, s, a) && id in s.rows && !s.rows[id].isTest
    ensures id in Next(norm, base, s, a).rows || (a.Commit? && a.ticket.Remove? && a.ticket.id == id)
  {
    match a
    case Commit(ticket, now) => CommitSparesRows(norm, s.(tickets := s.tickets - multiset{ticket}), ticket, now, id);
    case Upsert(row) => UpsertKeys(norm, base, s.rows, row);
    case Purge(gone, cutoff, limit) => PurgeSparesRealListings(norm, base, s, gone, cutoff, limit);
    case _ =>
  }

  // ---- Removal ----

  /** The endpoint was removed, and no plan from before the removal still lists it. */
  ghost predicate Gone(norm: string -> string, s: State, k: SourceKey) {
    k in s.doNotImport && forall p :: p in s.planned ==> KeyOf(norm, p) != k
  }

  lemma StepKeepsGone(norm: string -> string, base: Option<string>, s: State, a: Action, k: SourceKey)
    requires Can(norm, s, a) && Gone(norm, s, k)
    ensures Gone(norm, Next(norm, base, s, a), k) && (a.Upsert? ==> KeyOf(norm, a.row) != k)
  { }

  /** Then no upsert is ever for it again. */
  lemma {:induction false} RemovedIsNeverReimported(norm: string -> string, base: Option<string>, s: State,
                                                    actions: seq<Action>, k: SourceKey)
    requires CanRun(norm, base, s, actions) && Gone(norm, s, k)
    ensures Gone(norm, Run(norm, base, s, actions), k)
    ensures forall a <- actions :: a.Upsert? ==> KeyOf(norm, a.row) != k
  {
    if |actions| != 0 {
      var n := |actions| - 1;
      RemovedIsNeverReimported(norm, base, s, actions[..n], k);
      StepKeepsGone(norm, base, Run(norm, base, s, actions[..n]), actions[n], k);
      assert actions == actions[..n] + [actions[n]];
    }
  }

  ghost predicate Upserts(norm: string -> string, actions: seq<Action>, k: SourceKey) {
    exists a <- actions :: a.Upsert? && KeyOf(norm, a.row) == k
  }

  /** Some run upserts a removed endpoint again exactly if a plan from before the removal still lists it. */
  lemma ReimportedIff(norm: string -> string, base: Option<string>, s: State, k: SourceKey)
    requires k in s.doNotImport
    ensures (exists actions :: CanRun(norm, base, s, actions) && Upserts(norm, actions, k))
       <==> (exists p :: p in s.planned && KeyOf(norm, p) == k)
  {
    if p :| p in s.planned && KeyOf(norm, p) == k {
      var again := [Upsert(p)];
      OneMoreAction(norm, base, s, [], Upsert(p));
      assert [] + [Upsert(p)] == again;
      assert again[0] in again;
      assert CanRun(norm, base, s, again) && Upserts(norm, again, k);
    } else {
      assert Gone(norm, s, k);
      forall actions | CanRun(norm, base, s, actions) ensures !Upserts(norm, actions, k) {
        RemovedIsNeverReimported(norm, base, s, actions, k);
      }
    }
  }

  lemma OneMoreAction(norm: string -> string, base: Option<string>, s: State, actions: seq<Action>, a: Action)
    ensures Run(norm, base, s, actions + [a]) == Next(norm, base, Run(norm, base, s, actions), a)
    ensures CanRun(norm, base, s, actions + [a]) <==>
              CanRun(norm, base, s, actions) && Can(norm, Run(norm, base, s, actions), a)
  {
    assert (actions + [a])[..|actions|] == actions;
  }

  /**
   And that upsert brings the endpoint back, unless it is an offering some other unclaimed import
   duplicates, or a listing's owner has moved it to this endpoint meanwhile.
   */
  lemma StaleUpsertLands(norm: string -> string, base: Option<string>, s: State, r: ImportRow)
    requires Good(norm, s) && r in s.planned
    ensures var s', k := Next(norm, base, s, Upsert(r)), KeyOf(norm, r);
            At(s'.rows, r.id, k) <==>
              && !Known(s.rows, k)
              && (r.content.listingType == GUARDED_TYPE ==>
                    forall other :: other in s.rows ==> !IsDuplicate(s.rows, other, k.1, PLACEHOLDER, None, false))
  {
    UpsertKeys(norm, base, s.rows, r);
    assert r.id !in s.rows;
    if !Known(s.rows, KeyOf(norm, r)) {
      FirstImportRefusedIff(norm, base, s.rows, r);
      UpsertEffect(norm, base, s.rows, r);
    }
  }

  /** The signed removal of a listing as it was imported. */
  function RemovalOf(r: ImportRow): Ticket {
    Remove(r.id, r.content.paymentWallet)
  }

  lemma RemovalUnlists(norm: string -> string, s: State, id: Id, wallet: string, k: SourceKey, now: Time)
    requires RowsOk(norm, s.rows) && At(s.rows, id, k)
    ensures var s' := Committed(norm, s, Remove(id, wallet), now);
            s'.rows == s.rows - {id} && IndexOk(s'.rows) && !Known(s'.rows, k) && k in s'.doNotImport
  {
    assert RowOk(norm, s.rows[id]);
    forall other ensures !At(s.rows - {id}, other, k) {
      if At(s.rows, other, k) { KeyIsUnique(s.rows, id, other, k); }
    }
  }

  /**
   Removing a listing and then upserting a row planned before brings its endpoint back, but for
   duplicated offerings.
   */
  lemma StalePlanReimports(norm: string -> string, base: Option<string>, s: State, id: Id, wallet: string, r: ImportRow,
                           now: Time)
    requires Good(norm, s) && At(s.rows, id, KeyOf(norm, r)) && r in s.planned && Remove(id, wallet) in s.tickets
    ensures var actions, k := [Commit(Remove(id, wallet), now), Upsert(r)], KeyOf(norm, r);
            var s' := Run(norm, base, s, actions);
            && CanRun(norm, base, s, actions) && k in s'.doNotImport
            && (At(s'.rows, r.id, k) <==>
                  (r.content.listingType == GUARDED_TYPE ==>
                     forall other :: other in s.rows ==>
                         !IsDuplicate(s.rows, other, k.1, PLACEHOLDER, Some(id), false)))
  {
    var remove, k := Commit(Remove(id, wallet), now), KeyOf(norm, r);
    var mid := Next(norm, base, s, remove);
    TwoActions(norm, base, s, remove, Upsert(r));
    RemovalUnlists(norm, s.(tickets := s.tickets - multiset{Remove(id, wallet)}), id, wallet, k, now);
    StepKeepsGood(norm, base, s, remove);
    StaleUpsertLands(norm, base, mid, r);
    RemovalKeepsPlans(norm, base, s, id, wallet, now);
    DuplicatesWithout(s.rows, id, k.1);
  }

  lemma TwoActions(norm: string -> string, base: Option<string>, s: State, a: Action, b: Action)
    ensures Run(norm, base, s, [a, b]) == Next(norm, base, Next(norm, base, s, a), b)
    ensures CanRun(norm, base, s, [a, b]) <==> Can(norm, s, a) && Can(norm, Next(norm, base, s, a), b)
  {
    OneMoreAction(norm, base, s, [], a);
    OneMoreAction(norm, base, s, [a], b);
    assert [] + [a] == [a] && [a] + [b] == [a, b];
  }

  lemma RemovalKeepsPlans(norm: string -> string, base: Option<string>, s: State, id: Id, wallet: string, now: Time)
    ensures Next(norm, base, s, Commit(Remove(id, wallet), now)).planned == s.planned
  { }

  /** Duplicates once a listing is gone are those that leave it out. */
  lemma DuplicatesWithout(t: Table, id: Id, key: string)
    ensures (forall other :: other in t - {id} ==> !IsDuplicate(t - {id}, other, key, PLACEHOLDER, None, false))
       <==> (forall other :: other in t ==> !IsDuplicate(t, other, key, PLACEHOLDER, Some(id), false))
  {
    forall other ensures IsDuplicate(t - {id}, other, key, PLACEHOLDER, None, false) <==>
                         IsDuplicate(t, other, key, PLACEHOLDER, Some(id), false) { }
  }

  /** From the empty board: import, plan again, remove, and the second plan's upsert recreates what was removed. */
  lemma RemovedAndRecreated(norm: string -> string, base: Option<string>, first: ImportRow, again: ImportRow, now: Time)
    requires first.id != again.id && first.source == again.source && first.content == again.content
    requires first.content.paymentWallet != PLACEHOLDER
    ensures var actions := [Plan({first}), Upsert(first), Plan({again}), Admit(RemovalOf(first)),
                            Commit(RemovalOf(first), now), Upsert(again)];
            var s, k := Run(norm, base, EMPTY, actions), KeyOf(norm, first);
            CanRun(norm, base, EMPTY, actions) && k in s.doNotImport && At(s.rows, again.id, k)
  {
    var k, row := KeyOf(norm, first), FreshRow(norm, base, first.id, first.content, first.source, first.at);
    var begin := [Plan({first}), Upsert(first), Plan({again}), Admit(RemovalOf(first))];
    var removed := begin + [Commit(RemovalOf(first), now)];
    ImportedAndAdmitted(norm, base, first, again);
    var s := Run(norm, base, EMPTY, begin);
    EveryReachableStateIsGood(norm, base, begin);
    assert At(s.rows, first.id, k);
    StalePlanReimports(norm, base, s, first.id, first.content.paymentWallet, again, now);
    TwoActions(norm, base, s, Commit(RemovalOf(first), now), Upsert(again));
    OneMoreAction(norm, base, EMPTY, begin, Commit(RemovalOf(first), now));
    OneMoreAction(norm, base, EMPTY, removed, Upsert(again));
    assert removed + [Upsert(again)]
        == [Plan({first}), Upsert(first), Plan({again}), Admit(RemovalOf(first)), Commit(RemovalOf(first), now),
            Upsert(again)];
  }

  /** The actions can happen from the empty board, and end in this state. */
  ghost predicate Leads(norm: string -> string, base: Option<string>, actions: seq<Action>, s: State) {
    CanRun(norm, base, EMPTY, actions) && Run(norm, base, EMPTY, actions) == s
  }

  lemma LeadsOn(norm: string -> string, base: Option<string>, actions: seq<Action>, s: State, a: Action)
    requires Leads(norm, base, actions, s) && Can(norm, s, a)
    ensures Leads(norm, base, actions + [a], Next(norm, base, s, a))
  {
    OneMoreAction(norm, base, EMPTY, actions, a);
  }

  lemma FirstImportOnEmptyBoard(norm: string -> string, base: Option<string>, r: ImportRow)
    ensures UpsertOk(norm, base, map[], r)
    ensures Upserted(norm, base, map[], r) == map[r.id := FreshRow(norm, base, r.id, r.content, r.source, r.at)]
  {
    UpsertEffect(norm, base, map[], r);
    FirstImportRefusedIff(norm, base, map[], r);
  }

  lemma Imported(norm: string -> string, base: Option<string>, r: ImportRow)
    ensures Leads(norm, base, [Plan({r}), Upsert(r)],
                  EMPTY.(rows := map[r.id := FreshRow(norm, base, r.id, r.content, r.source, r.at)], born := {r.id}))
  {
    var planned := EMPTY.(planned := {r});
    PlannedFirst(norm, base, r);
    FirstImportOnEmptyBoard(norm, base, r);
    LeadsOn(norm, base, [Plan({r})], planned, Upsert(r));
    assert [Plan({r})] + [Upsert(r)] == [Plan({r}), Upsert(r)] && planned.planned - {r} == {};
  }

  lemma PlannedFirst(norm: string -> string, base: Option<string>, r: ImportRow)
    ensures Leads(norm, base, [Plan({r})], EMPTY.(planned := {r}))
  {
    assert Leads(norm, base, [], EMPTY);
    LeadsOn(norm, base, [], EMPTY, Plan({r}));
    assert [] + [Plan({r})] == [Plan({r})] && EMPTY.planned + {r} == {r};
  }

  lemma ImportedAndAdmitted(norm: string -> string, base: Option<string>, first: ImportRow, again: ImportRow)
    requires first.id != again.id && first.content.paymentWallet != PLACEHOLDER
    ensures Leads(norm, base, [Plan({first}), Upsert(first), Plan({again}), Admit(RemovalOf(first))],
                  State(map[first.id := FreshRow(norm, base, first.id, first.content, first.source, first.at)], {},
                        {first.id},
                        multiset{RemovalOf(first)}, {again}, [], map[]))
  {
    var row := FreshRow(norm, base, first.id, first.content, first.source, first.at);
    var s := EMPTY.(rows := map[first.id := row], born := {first.id});
    Imported(norm, base, first);
    LeadsOn(norm, base, [Plan({first}), Upsert(first)], s, Plan({again}));
    assert s.planned + {again} == {again};
    assert [Plan({first}), Upsert(first)] + [Plan({again})] == [Plan({first}), Upsert(first), Plan({again})];
    LeadsOn(norm, base, [Plan({first}), Upsert(first), Plan({again})], s.(planned := {again}), Admit(RemovalOf(first)));
    assert [Plan({first}), Upsert(first), Plan({again})] + [Admit(RemovalOf(first))]
        == [Plan({first}), Upsert(first), Plan({again}), Admit(RemovalOf(first))];
  }

  // ---- Heartbeats ----

  /** The wait a refused heartbeat is told, in whole seconds: a day from the last one, and at least one. */
  function RetryAfter(lastSeen: Option<Time>, now: Time): int {
    var due := GetOr(lastSeen, now) + HEARTBEAT_MIN_INTERVAL - now;
    var seconds := (due + SECOND - 1) / SECOND;
    if seconds < 1 then 1 else seconds
  }

  /**
   Waiting that long is enough for a listing that is still active with no heartbeat since, and a
   second less is not.
   */
  lemma WaitIsExact(t: Table, id: Id, now: Time, later: Time)
    requires id in t && t[id].status.Active? && !MayBeat(t, id, now - HEARTBEAT_MIN_INTERVAL)
    ensures var wait := RetryAfter(t[id].lastSeenAt, now);
            && (later >= now + wait * SECOND ==> MayBeat(t, id, later - HEARTBEAT_MIN_INTERVAL))
            && (later <= now + (wait - 1) * SECOND ==> !MayBeat(t, id, later - HEARTBEAT_MIN_INTERVAL))
  { }
}
