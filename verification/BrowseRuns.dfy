/** Activity along the life of the board: with one clock it only grows, so a browse repeats nothing. */
module BrowseRuns {
  import opened Wrappers
  import opened Listings
  import opened Statements
  import opened Lifecycle
  import opened Ownership
  import Cursors
  import Search

  // ---- One step ----

  /** A write that stamps the listing with its own time of change. */
  predicate Stamps(a: Action, id: Id) {
    a.Commit? && a.ticket.id == id && (a.ticket.Edit? || a.ticket.Deactivate? || a.ticket.Claim?)
  }

  lemma RefreshKeepsActivity(base: Option<string>, id: Id, row: Row, c: Content, at: Time)
    ensures LastActivity(RefreshedRow(base, id, row, c, at)) == LastActivity(row)
  { }

  lemma UpsertKeepsActivity(norm: string -> string, base: Option<string>, t: Table, r: ImportRow, id: Id)
    requires SourceUnique(t) && id in Upserted(norm, base, t, r) && r.id !in t
    ensures LastActivity(Upserted(norm, base, t, r)[id]) == if id in t then LastActivity(t[id]) else r.at
  {
    UpsertEffect(norm, base, t, r);
    UpsertKeys(norm, base, t, r);
    if id in t { RefreshKeepsActivity(base, id, t[id], r.content, r.at); }
  }

  lemma CommitGrows(norm: string -> string, s: State, ticket: Ticket, now: Time, id: Id)
    requires id in s.rows && id in Committed(norm, s, ticket, now).rows
    ensures LastActivity(s.rows[id]) <= LastActivity(Committed(norm, s, ticket, now).rows[id])
         || (Stamps(Commit(ticket, now), id) && now < LastActivity(s.rows[id]))
    ensures LastActivity(Committed(norm, s, ticket, now).rows[id]) <= Max(LastActivity(s.rows[id]), now)
  { }

  /** Activity falls only by a write stamped with a time before it. */
  lemma ActivityFallsOnlyByEarlierWrites(norm: string -> string, base: Option<string>, s: State, a: Action, id: Id)
    requires Good(norm, s) && Can(norm, s, a) && id in s.rows && id in Next(norm, base, s, a).rows
    ensures LastActivity(s.rows[id]) <= LastActivity(Next(norm, base, s, a).rows[id])
         || (Stamps(a, id) && a.now < LastActivity(s.rows[id]))
  {
    if a.Commit? {
      CommitGrows(norm, s.(tickets := s.tickets - multiset{a.ticket}), a.ticket, a.now, id);
    } else if a.Upsert? && UpsertOk(norm, base, s.rows, a.row) {
      UpsertKeepsActivity(norm, base, s.rows, a.row, id);
    }
  }

  /** And such a write can make it fall. */
  lemma EarlierWriteFalls(norm: string -> string, base: Option<string>, s: State, id: Id, p: Patch, now: Time)
    requires Good(norm, s) && Edit(id, p) in s.tickets && id in s.rows
    requires IndexOk(s.rows[id := PatchedRow(norm, s.rows[id], p, now)])
    requires Max(now, Max(s.rows[id].createdAt, GetOr(s.rows[id].lastSeenAt, now))) < s.rows[id].updatedAt
    ensures var s' := Next(norm, base, s, Commit(Edit(id, p), now));
            Can(norm, s, Commit(Edit(id, p), now)) && id in s'.rows
            && LastActivity(s'.rows[id]) < LastActivity(s.rows[id])
  { }

  // ---- A run in which activity falls ----

  /** A board with one listing, last edited at `at`, and these requests waiting to be written. */
  function Edited(id: Id, row: Row, at: Time, waiting: multiset<Ticket>): State {
    State(map[id := row.(updatedAt := at)], {}, {id}, waiting, {}, [], map[])
  }

  lemma EditOnce(norm: string -> string, base: Option<string>, s: State, id: Id, now: Time)
    requires s.rows.Keys == {id} && Edit(id, NO_PATCH) in s.tickets
    ensures Next(norm, base, s, Commit(Edit(id, NO_PATCH), now)) ==
            s.(rows := map[id := s.rows[id].(updatedAt := now)], tickets := s.tickets - multiset{Edit(id, NO_PATCH)})
  {
    var after := map[id := s.rows[id].(updatedAt := now)];
    AgreeingPatchKeeps(s.rows[id].content, NO_PATCH);
    assert s.rows[id := PatchedRow(norm, s.rows[id], NO_PATCH, now)] == after;
    assert IndexOk(after);
  }

  /** One of the waiting edits is written. */
  lemma EditWrites(norm: string -> string, base: Option<string>, id: Id, row: Row, was: Time, waiting: multiset<Ticket>,
                   now: Time)
    ensures var edit := Edit(id, NO_PATCH);
            var s := Edited(id, row, was, waiting + multiset{edit});
            Can(norm, s, Commit(edit, now)) && Next(norm, base, s, Commit(edit, now)) == Edited(id, row, now, waiting)
  {
    var edit := Edit(id, NO_PATCH);
    EditOnce(norm, base, Edited(id, row, was, waiting + multiset{edit}), id, now);
    assert waiting + multiset{edit} - multiset{edit} == waiting;
  }

  lemma EditIsAdmitted(norm: string -> string, base: Option<string>, id: Id, row: Row, at: Time,
                       waiting: multiset<Ticket>)
    requires row.submittedBy != PLACEHOLDER
    ensures var edit := Edit(id, NO_PATCH);
            var s := Edited(id, row, at, waiting);
            Can(norm, s, Admit(edit)) && Next(norm, base, s, Admit(edit)) ==
            Edited(id, row, at, waiting + multiset{edit})
  { }

  lemma FirstListing(norm: string -> string, base: Option<string>, id: Id, c: Content, owner: string, isTest: bool,
                     at: Time)
    ensures Leads(norm, base, [Create(id, c, owner, isTest, at)],
                  Edited(id, Organic(norm, c, owner, isTest, at), at, multiset{}))
  {
    var create, row := Create(id, c, owner, isTest, at), Organic(norm, c, owner, isTest, at);
    assert Leads(norm, base, [], EMPTY);
    LeadsOn(norm, base, [], EMPTY, create);
    assert [] + [create] == [create] && IndexOk(map[id := row]) && row.(updatedAt := at) == row;
    assert Next(norm, base, EMPTY, create).rows == map[id := row];
  }

  lemma TwoEditsWait(norm: string -> string, base: Option<string>, id: Id, c: Content, owner: string, isTest: bool,
                     at: Time)
    requires owner != PLACEHOLDER
    ensures var edit := Edit(id, NO_PATCH);
            Leads(norm, base, [Create(id, c, owner, isTest, at), Admit(edit), Admit(edit)],
                  Edited(id, Organic(norm, c, owner, isTest, at), at, multiset{edit} + multiset{edit}))
  {
    var edit, create := Edit(id, NO_PATCH), Create(id, c, owner, isTest, at);
    var row := Organic(norm, c, owner, isTest, at);
    FirstListing(norm, base, id, c, owner, isTest, at);
    EditIsAdmitted(norm, base, id, row, at, multiset{});
    EditIsAdmitted(norm, base, id, row, at, multiset{edit});
    assert multiset{} + multiset{edit} == multiset{edit};
    LeadsOn(norm, base, [create], Edited(id, row, at, multiset{}), Admit(edit));
    assert [create] + [Admit(edit)] == [create, Admit(edit)];
    LeadsOn(norm, base, [create, Admit(edit)], Edited(id, row, at, multiset{edit}), Admit(edit));
    assert [create, Admit(edit)] + [Admit(edit)] == [create, Admit(edit), Admit(edit)];
  }

  /** From the empty board: two requests of the owner read the clock in one order and write in the other. */
  lemma LateWriteFalls(norm: string -> string, base: Option<string>, id: Id, c: Content, owner: string, isTest: bool,
                       at: Time, first: Time, second: Time)
    requires owner != PLACEHOLDER && at <= first < second
    ensures var edit := Edit(id, NO_PATCH);
            var actions := [Create(id, c, owner, isTest, at), Admit(edit), Admit(edit)] + [Commit(edit, second)];
            var s, after := Run(norm, base, EMPTY, actions), Run(norm, base, EMPTY, actions + [Commit(edit, first)]);
            && CanRun(norm, base, EMPTY, actions + [Commit(edit, first)]) && id in s.rows && id in after.rows
            && LastActivity(s.rows[id]) == second && LastActivity(after.rows[id]) == first
  {
    var edit, row := Edit(id, NO_PATCH), Organic(norm, c, owner, isTest, at);
    var begin := [Create(id, c, owner, isTest, at), Admit(edit), Admit(edit)];
    TwoEditsWait(norm, base, id, c, owner, isTest, at);
    EditWrites(norm, base, id, row, at, multiset{edit}, second);
    LeadsOn(norm, base, begin, Edited(id, row, at, multiset{edit} + multiset{edit}), Commit(edit, second));
    EditWrites(norm, base, id, row, second, multiset{}, first);
    assert multiset{} + multiset{edit} == multiset{edit};
    LeadsOn(norm, base, begin + [Commit(edit, second)], Edited(id, row, second, multiset{edit}), Commit(edit, first));
    ActivityOf(row, second);
    ActivityOf(row, first);
  }

  lemma ActivityOf(row: Row, updatedAt: Time)
    requires row.lastSeenAt.None? && row.createdAt <= updatedAt
    ensures LastActivity(row.(updatedAt := updatedAt)) == updatedAt
  { }

  // ---- One clock ----

  /** The action takes the clock's reading, and a plan's rows one no later. */
  ghost predicate AtTime(a: Action, t: Time) {
    match a
    case Create(_, _, _, _, now) => now == t
    case Commit(_, now) => now == t
    case Plan(batch) => forall r :: r in batch ==> r.at <= t
    case _ => true
  }

  ghost predicate OnClock(actions: seq<Action>, clock: seq<Time>) {
    && |clock| == |actions|
    && (forall i, j :: 0 <= i <= j < |clock| ==> clock[i] <= clock[j])
    && (forall i :: 0 <= i < |actions| ==> AtTime(actions[i], clock[i]))
  }

  /** Nothing on the board, or planned for it, is later than `t`. */
  ghost predicate UpTo(s: State, t: Time) {
    && (forall id :: id in s.rows ==> LastActivity(s.rows[id]) <= t)
    && (forall p :: p in s.planned ==> p.at <= t)
  }

  ghost predicate Grows(t: Table, after: Table) {
    forall id :: id in t && id in after ==> LastActivity(t[id]) <= LastActivity(after[id])
  }

  lemma StepGrows(norm: string -> string, base: Option<string>, s: State, a: Action, t: Time)
    requires Good(norm, s) && Can(norm, s, a) && UpTo(s, t) && AtTime(a, t)
    ensures UpTo(Next(norm, base, s, a), t) && Grows(s.rows, Next(norm, base, s, a).rows)
  {
    var s' := Next(norm, base, s, a);
    forall id | id in s.rows && id in s'.rows ensures LastActivity(s.rows[id]) <= LastActivity(s'.rows[id]) {
      ActivityFallsOnlyByEarlierWrites(norm, base, s, a, id);
    }
    forall id | id in s'.rows ensures LastActivity(s'.rows[id]) <= t {
      StepStaysUpTo(norm, base, s, a, t, id);
    }
  }

  lemma CommitStaysUpTo(norm: string -> string, s: State, ticket: Ticket, t: Time, id: Id)
    requires UpTo(s, t) && id in Committed(norm, s, ticket, t).rows
    ensures LastActivity(Committed(norm, s, ticket, t).rows[id]) <= t
  {
    assert id in s.rows;
    CommitGrows(norm, s, ticket, t, id);
  }

  lemma UpsertStaysUpTo(norm: string -> string, base: Option<string>, s: State, r: ImportRow, t: Time, id: Id)
    requires SourceUnique(s.rows) && r.id !in s.rows && UpTo(s, t) && r.at <= t && id in Upserted(norm, base, s.rows, r)
    ensures LastActivity(Upserted(norm, base, s.rows, r)[id]) <= t
  {
    UpsertKeepsActivity(norm, base, s.rows, r, id);
  }

  lemma StepStaysUpTo(norm: string -> string, base: Option<string>, s: State, a: Action, t: Time, id: Id)
    requires Good(norm, s) && Can(norm, s, a) && UpTo(s, t) && AtTime(a, t) && id in Next(norm, base, s, a).rows
    ensures LastActivity(Next(norm, base, s, a).rows[id]) <= t
  {
    if a.Commit? {
      CommitStaysUpTo(norm, s.(tickets := s.tickets - multiset{a.ticket}), a.ticket, t, id);
    } else if a.Upsert? && UpsertOk(norm, base, s.rows, a.row) {
      UpsertStaysUpTo(norm, base, s, a.row, t, id);
    }
  }

  /** Along any run on one clock, no listing's activity falls while it stays. */
  lemma {:induction false} ActivityGrows(norm: string -> string, base: Option<string>, s: State, t: Time,
                                         actions: seq<Action>, clock: seq<Time>)
    requires Good(norm, s) && CanRun(norm, base, s, actions) && UpTo(s, t)
    requires OnClock(actions, clock) && (clock != [] ==> t <= clock[0])
    ensures UpTo(Run(norm, base, s, actions), if clock == [] then t else clock[|clock| - 1])
    ensures Grows(s.rows, Run(norm, base, s, actions).rows)
  {
    if |actions| != 0 {
      var n := |actions| - 1;
      var mid, s' := Run(norm, base, s, actions[..n]), Run(norm, base, s, actions);
      ActivityGrows(norm, base, s, t, actions[..n], clock[..n]);
      RunKeepsGood(norm, base, s, actions[..n]);
      ListingsContinue(norm, base, s, actions[..n]);
      StepKeepsRows(norm, base, mid, actions[n]);
      StepGrows(norm, base, mid, actions[n], clock[n]);
      forall id | id in s.rows && id in s'.rows ensures LastActivity(s.rows[id]) <= LastActivity(s'.rows[id]) {
        assert id in mid.rows;
      }
    }
  }

  // ---- Browsing along a run ----

  /** Page `i` of the walk is read after the first `at[i]` actions of the run. */
  ghost predicate SeenAlong(norm: string -> string, base: Option<string>, actions: seq<Action>, at: seq<nat>,
                            moments: seq<Search.Moment>) {
    && |at| == |moments|
    && (forall i :: 0 <= i < |at| ==> at[i] <= |actions|)
    && (forall i, j :: 0 <= i <= j < |at| ==> at[i] <= at[j])
    && (forall i :: 0 <= i < |at| ==> moments[i].table == Run(norm, base, EMPTY, actions[..at[i]]).rows)
  }

  /** The board after `n` actions knows nothing later than the clock. */
  lemma UpToTheClock(norm: string -> string, base: Option<string>, actions: seq<Action>, clock: seq<Time>, n: nat)
    requires CanRun(norm, base, EMPTY, actions) && OnClock(actions, clock) && n < |actions|
    ensures UpTo(Run(norm, base, EMPTY, actions[..n]), clock[n])
  {
    CanRunPrefix(norm, base, EMPTY, actions, n);
    var prefix, before := actions[..n], clock[..n];
    assert OnClock(prefix, before);
    ActivityGrows(norm, base, EMPTY, clock[0], prefix, before);
    LaterStillUpTo(Run(norm, base, EMPTY, prefix), if n == 0 then clock[0] else clock[n - 1], clock[n]);
  }

  lemma LaterStillUpTo(s: State, t: Time, u: Time)
    requires UpTo(s, t) && t <= u
    ensures UpTo(s, u)
  { }

  /** A later state of the same board: ids not reused, and no activity fallen. */
  ghost predicate Onward(first: State, s: State) {
    Grows(first.rows, s.rows) && first.rows.Keys <= first.born <= s.born
  }

  lemma StartsOnward(norm: string -> string, base: Option<string>, actions: seq<Action>, n: nat)
    requires CanRun(norm, base, EMPTY, actions) && n <= |actions|
    ensures Onward(Run(norm, base, EMPTY, actions[..n]), Run(norm, base, EMPTY, actions[..n]))
  {
    CanRunPrefix(norm, base, EMPTY, actions, n);
    EveryReachableStateIsGood(norm, base, actions[..n]);
  }

  lemma StepsOnward(norm: string -> string, base: Option<string>, first: State, s: State, a: Action, t: Time)
    requires Good(norm, s) && Can(norm, s, a) && UpTo(s, t) && AtTime(a, t) && Onward(first, s)
    ensures Onward(first, Next(norm, base, s, a))
  {
    StepKeepsRows(norm, base, s, a);
    StepGrows(norm, base, s, a, t);
    forall id | id in first.rows && id in Next(norm, base, s, a).rows
      ensures LastActivity(first.rows[id]) <= LastActivity(Next(norm, base, s, a).rows[id])
    {
      assert id in s.rows;
    }
  }

  ghost predicate Carries(s: State, after: State) {
    forall first :: Onward(first, s) ==> Onward(first, after)
  }

  lemma OneOnward(norm: string -> string, base: Option<string>, actions: seq<Action>, clock: seq<Time>, n: nat)
    requires CanRun(norm, base, EMPTY, actions) && OnClock(actions, clock) && n < |actions|
    ensures Carries(Run(norm, base, EMPTY, actions[..n]), Run(norm, base, EMPTY, actions[..n + 1]))
  {
    NextState(norm, base, actions, n);
    UpToTheClock(norm, base, actions, clock, n);
    forall first | Onward(first, Run(norm, base, EMPTY, actions[..n]))
      ensures Onward(first, Run(norm, base, EMPTY, actions[..n + 1]))
    {
      StepsOnward(norm, base, first, Run(norm, base, EMPTY, actions[..n]), actions[n], clock[n]);
    }
  }

  lemma {:induction false} OnwardThroughout(states: seq<State>, m: nat, n: nat)
    requires m <= n < |states| && Onward(states[m], states[m])
    requires forall i :: m <= i < n ==> Carries(states[i], states[i + 1])
    ensures Onward(states[m], states[n])
    decreases n
  {
    if m < n {
      OnwardThroughout(states, m, n - 1);
      assert Carries(states[n - 1], states[n - 1 + 1]);
    }
  }

  /** The board after each prefix of the run. */
  ghost function StatesOf(norm: string -> string, base: Option<string>, actions: seq<Action>): (states: seq<State>)
    ensures |states| == |actions| + 1
    ensures forall i :: 0 <= i < |states| ==> states[i] == Run(norm, base, EMPTY, actions[..i])
  {
    seq(|actions| + 1, i requires 0 <= i <= |actions| => Run(norm, base, EMPTY, actions[..i]))
  }

  lemma PrefixGrows(norm: string -> string, base: Option<string>, actions: seq<Action>, clock: seq<Time>, m: nat,
                    n: nat)
    requires CanRun(norm, base, EMPTY, actions) && OnClock(actions, clock) && m <= n <= |actions|
    ensures Onward(Run(norm, base, EMPTY, actions[..m]), Run(norm, base, EMPTY, actions[..n]))
  {
    var states := StatesOf(norm, base, actions);
    StartsOnward(norm, base, actions, m);
    forall i | m <= i < n ensures Carries(states[i], states[i + 1]) {
      OneOnward(norm, base, actions, clock, i);
    }
    OnwardThroughout(states, m, n);
    assert states[m] == Run(norm, base, EMPTY, actions[..m]) && states[n] == Run(norm, base, EMPTY, actions[..n]);
  }

  /** Whatever requests, syncs and purges happen between its pages, a browse lists no listing twice. */
  lemma BoardBrowseNeverRepeats(codec: Cursors.Codec, engine: Search.Engine, norm: string -> string,
                                base: Option<string>, actions: seq<Action>, clock: seq<Time>, at: seq<nat>,
                                moments: seq<Search.Moment>, r: Search.Request, id: Id)
    requires CanRun(norm, base, EMPTY, actions) && OnClock(actions, clock)
    requires SeenAlong(norm, base, actions, at, moments)
    requires Cursors.Sound(codec) && Search.AllCarried(codec, engine, moments, Search.QueryText(r.q), Search.ByActivity)
    requires Search.Starts(r) && !Cursors.Searching(r.q)
    ensures Search.TimesListed(Search.ClientWalk(codec, engine, moments, r), id) <= 1
  {
    forall i, j | 0 <= i <= j < |moments| && id in moments[i].table && id in moments[j].table
      ensures LastActivity(moments[i].table[id]) <= LastActivity(moments[j].table[id])
    {
      PrefixGrows(norm, base, actions, clock, at[i], at[j]);
    }
    Search.BrowseNeverRepeats(codec, engine, moments, r, id);
  }
}
