/**
 What moves a listing's freshness, over every step and whole runs: a heartbeat only of an active listing,
 a missing mark only of an active one that its source no longer lists.
 */
module Freshness {
  import opened Wrappers
  import opened Listings
  import opened Statements
  import opened Database
  import opened Lifecycle

  // ---- Heartbeats ----

  lemma CommitMovesSeen(norm: string -> string, s: State, ticket: Ticket, now: Time, id: Id)
    requires IndexOk(s.rows) && id in s.rows && id in Committed(norm, s, ticket, now).rows
    ensures var row, after := s.rows[id], Committed(norm, s, ticket, now).rows[id];
            after.lastSeenAt ==
              if ticket == Beat(id) && row.status == Active
                 && (row.lastSeenAt.None? || row.lastSeenAt.value + HEARTBEAT_MIN_INTERVAL <= now)
              then Some(now) else row.lastSeenAt
  {
    if ticket.Beat? && ticket.id in s.rows { BeatKeepsIndexes(s.rows, ticket.id, now); }
  }

  lemma UpsertMovesNoSeen(norm: string -> string, base: Option<string>, t: Table, r: ImportRow, id: Id)
    requires SourceUnique(t) && r.id !in t && id in t
    ensures id in Upserted(norm, base, t, r) && Upserted(norm, base, t, r)[id].lastSeenAt == t[id].lastSeenAt
  {
    UpsertEffect(norm, base, t, r);
    UpsertKeys(norm, base, t, r);
  }

  /**
   A step moves a listing's last heartbeat exactly if it is the listing's own heartbeat, the listing is
   active, and a day has passed since the last one; and then to the time of that step.
   */
  lemma OnlyItsHeartbeatMovesSeen(norm: string -> string, base: Option<string>, s: State, a: Action, id: Id)
    requires Good(norm, s) && Can(norm, s, a) && id in s.rows && id in Next(norm, base, s, a).rows
    ensures var row, after := s.rows[id], Next(norm, base, s, a).rows[id];
            after.lastSeenAt ==
              if a.Commit? && a.ticket == Beat(id) && row.status == Active
                 && (row.lastSeenAt.None? || row.lastSeenAt.value + 24 * 3600 * 1_000_000 <= a.now)
              then Some(a.now) else row.lastSeenAt
  {
    if a.Commit? {
      CommitMovesSeen(norm, s.(tickets := s.tickets - multiset{a.ticket}), a.ticket, a.now, id);
    } else if a.Upsert? {
      UpsertMovesNoSeen(norm, base, s.rows, a.row, id);
    }
  }

  /** After every prefix of the run the listing is there and inactive. */
  ghost predicate StaysInactive(norm: string -> string, base: Option<string>, s: State, actions: seq<Action>, id: Id) {
    (id in s.rows && s.rows[id].status == Inactive) &&
    (|actions| != 0 ==>
       var n := |actions| - 1;
       && StaysInactive(norm, base, s, actions[..n], id)
       && id in Run(norm, base, s, actions).rows && Run(norm, base, s, actions).rows[id].status == Inactive)
  }

  lemma {:induction false} InactiveAtEnd(norm: string -> string, base: Option<string>, s: State, actions: seq<Action>,
                                         id: Id)
    requires StaysInactive(norm, base, s, actions, id)
    ensures id in Run(norm, base, s, actions).rows && Run(norm, base, s, actions).rows[id].status == Inactive
  { }

  /** As long as a listing stays inactive, nothing gives it a heartbeat. */
  lemma {:induction false} InactiveIsNeverSeen(norm: string -> string, base: Option<string>, s: State,
                                               actions: seq<Action>, id: Id)
    requires Good(norm, s) && CanRun(norm, base, s, actions) && StaysInactive(norm, base, s, actions, id)
    ensures id in Run(norm, base, s, actions).rows
    ensures Run(norm, base, s, actions).rows[id].lastSeenAt == s.rows[id].lastSeenAt
  {
    if |actions| != 0 {
      var n := |actions| - 1;
      InactiveIsNeverSeen(norm, base, s, actions[..n], id);
      InactiveAtEnd(norm, base, s, actions[..n], id);
      RunKeepsGood(norm, base, s, actions[..n]);
      OnlyItsHeartbeatMovesSeen(norm, base, Run(norm, base, s, actions[..n]), actions[n], id);
    }
  }

  // ---- Missing marks ----

  lemma CommitMovesNoMark(norm: string -> string, s: State, ticket: Ticket, now: Time, id: Id)
    requires id in s.rows && id in Committed(norm, s, ticket, now).rows
    ensures Committed(norm, s, ticket, now).rows[id].missingSince == s.rows[id].missingSince
  { }

  lemma UpsertMovesMark(norm: string -> string, base: Option<string>, t: Table, r: ImportRow, id: Id)
    requires SourceUnique(t) && r.id !in t && id in t
    ensures id in Upserted(norm, base, t, r)
    ensures Upserted(norm, base, t, r)[id].missingSince ==
            if t[id].source == Some(r.source) && t[id].endpointKey == norm(r.content.endpointUrl) then None
            else t[id].missingSince
  {
    UpsertEffect(norm, base, t, r);
    UpsertKeys(norm, base, t, r);
  }

  /**
   A step moves a listing's missing mark in two ways: a marking of its source sets it if the listing is
   active, not marked yet and not among the endpoints seen; an upsert of its endpoint takes it away.
   */
  lemma OnlySyncMovesMark(norm: string -> string, base: Option<string>, s: State, a: Action, id: Id)
    requires Good(norm, s) && Can(norm, s, a) && id in s.rows && id in Next(norm, base, s, a).rows
    ensures var row, after := s.rows[id], Next(norm, base, s, a).rows[id];
            after.missingSince ==
              if a.MarkMissing? && row.source == Some(a.source) && row.status == Active
                 && row.missingSince.None? && row.endpointKey !in a.seen
              then Some(a.now)
              else if a.Upsert? && UpsertOk(norm, base, s.rows, a.row)
                      && row.source == Some(a.row.source) && row.endpointKey == norm(a.row.content.endpointUrl)
              then None
              else row.missingSince
  {
    if a.Commit? {
      CommitMovesNoMark(norm, s.(tickets := s.tickets - multiset{a.ticket}), a.ticket, a.now, id);
    } else if a.Upsert? {
      UpsertMovesMark(norm, base, s.rows, a.row, id);
    }
  }

  /** As long as a listing stays inactive, nothing marks it missing, whatever is synced. */
  lemma {:induction false} InactiveIsNeverMarked(norm: string -> string, base: Option<string>, s: State,
                                                 actions: seq<Action>, id: Id)
    requires Good(norm, s) && CanRun(norm, base, s, actions) && StaysInactive(norm, base, s, actions, id)
    requires s.rows[id].missingSince.None?
    ensures id in Run(norm, base, s, actions).rows && Run(norm, base, s, actions).rows[id].missingSince.None?
  {
    if |actions| != 0 {
      var n := |actions| - 1;
      InactiveIsNeverMarked(norm, base, s, actions[..n], id);
      InactiveAtEnd(norm, base, s, actions[..n], id);
      RunKeepsGood(norm, base, s, actions[..n]);
      OnlySyncMovesMark(norm, base, Run(norm, base, s, actions[..n]), actions[n], id);
    }
  }

  lemma UpsertKeepsStatus(norm: string -> string, base: Option<string>, t: Table, r: ImportRow, id: Id)
    requires SourceUnique(t) && id in t
    ensures id in Upserted(norm, base, t, r)
    ensures r.id !in t ==> Upserted(norm, base, t, r)[id].status == t[id].status
  {
    UpsertEffect(norm, base, t, r);
    UpsertKeys(norm, base, t, r);
  }

  lemma SyncStepKeepsStatus(norm: string -> string, base: Option<string>, s: State, a: Action, id: Id)
    requires Good(norm, s) && Can(norm, s, a) && SyncStep(a) && id in s.rows
    ensures id in Next(norm, base, s, a).rows && Next(norm, base, s, a).rows[id].status == s.rows[id].status
  {
    match a
    case Upsert(row) => UpsertKeepsStatus(norm, base, s.rows, row, id);
    case MarkMissing(source, seen, now) => MarkSparesAll(s.rows, source, seen, now, id);
    case Plan(_) =>
  }

  lemma {:induction false} SyncKeepsInactive(norm: string -> string, base: Option<string>, s: State,
                                             actions: seq<Action>, id: Id)
    requires Good(norm, s) && CanRun(norm, base, s, actions) && forall a <- actions :: SyncStep(a)
    requires id in s.rows && s.rows[id].status == Inactive
    ensures StaysInactive(norm, base, s, actions, id)
  {
    if |actions| != 0 {
      var n := |actions| - 1;
      SyncKeepsInactive(norm, base, s, actions[..n], id);
      InactiveAtEnd(norm, base, s, actions[..n], id);
      RunKeepsGood(norm, base, s, actions[..n]);
      SyncStepKeepsStatus(norm, base, Run(norm, base, s, actions[..n]), actions[n], id);
    }
  }

  /** So a listing its owner took down stays unmarked through any syncing. */
  lemma SyncNeverMarksInactive(norm: string -> string, base: Option<string>, s: State, actions: seq<Action>, id: Id)
    requires Good(norm, s) && CanRun(norm, base, s, actions) && forall a <- actions :: SyncStep(a)
    requires id in s.rows && s.rows[id].status == Inactive && s.rows[id].missingSince.None?
    ensures var after := Run(norm, base, s, actions).rows;
            id in after && after[id].status == Inactive && after[id].missingSince.None?
  {
    SyncKeepsInactive(norm, base, s, actions, id);
    InactiveAtEnd(norm, base, s, actions, id);
    InactiveIsNeverMarked(norm, base, s, actions, id);
  }
}
