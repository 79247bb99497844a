/**
 What the board knows about the verification service: two sections refreshed in the background, at
 most one refresh at a time, while readers only ever look at memory. Every step below is one locked
 block, or one unlocked action of a refresh thread; threads interleave freely between steps.
 */
module VerifierInfo {
  import opened Wrappers

  datatype Name = Payment | FreePath

  /** A section as kept in memory; `live` means this process fetched it and has not failed to since. */
  datatype Section = Section(data: string, fetchedAt: Option<int>, live: bool)

  datatype StoredSection = StoredSection(data: string, fetchedAt: Option<int>)

  type Stored = map<Name, StoredSection>

  /** Where a refresh thread is. */
  datatype Phase =
    | Beginning
    | Reading
    | Merging(stored: Stored)
    | Fetching(name: Name, ok: bool)
    | Saving(ok: bool)
    | Finishing(ok: bool)
    | Failing

  datatype Settings = Settings(enabled: bool, ttl: real, backoff: real)

  /** `latest` remembers, for the proofs, how each section's most recent fetch in this process went. */
  datatype State = State(
    sections: map<Name, Section>, loaded: bool, refreshing: bool,
    lastAttempt: Option<real>, lastOk: bool,
    threads: map<nat, Phase>, latest: map<Name, bool>, saved: Stored)

  datatype Step =
    | Start(thread: nat)
    | Snapshot(thread: nat, now: real)
    | Begin(thread: nat)
    | Read(thread: nat, result: Option<Stored>)
    | Merge(thread: nat)
    | Fetched(thread: nat, data: string, at: int)
    | FetchFailed(thread: nat)
    | Save(thread: nat, persisted: bool)
    | Finish(thread: nat, now: real)
    | Crash(thread: nat)
    | Clear(thread: nat)

  predicate RefreshDue(cfg: Settings, s: State, now: real) {
    s.lastAttempt.None? || now - s.lastAttempt.value >= if s.lastOk then cfg.ttl else cfg.backoff
  }

  /** Stored values fill only the sections nothing is known about, and are never live. */
  function Merged(sections: map<Name, Section>, stored: Stored): map<Name, Section> {
    map n | n in sections.Keys + stored.Keys ::
      if n in sections then sections[n] else Section(stored[n].data, stored[n].fetchedAt, false)
  }

  function Payload(sections: map<Name, Section>): Stored {
    map n | n in sections :: StoredSection(sections[n].data, sections[n].fetchedAt)
  }

  function AfterFetch(name: Name, ok: bool): Phase {
    if name.Payment? then Fetching(FreePath, ok) else Saving(ok)
  }

  predicate InPhase(s: State, thread: nat, p: Phase -> bool) {
    thread in s.threads && p(s.threads[thread])
  }

  /** Whether a step can happen; a new thread's number is not in use. */
  predicate Enabled(s: State, step: Step) {
    match step
    case Start(t) => t !in s.threads
    case Snapshot(t, _) => t !in s.threads
    case Begin(t) => InPhase(s, t, (p: Phase) => p.Beginning?)
    case Read(t, _) => InPhase(s, t, (p: Phase) => p.Reading?)
    case Merge(t) => InPhase(s, t, (p: Phase) => p.Merging?)
    case Fetched(t, _, _) => InPhase(s, t, (p: Phase) => p.Fetching?)
    case FetchFailed(t) => InPhase(s, t, (p: Phase) => p.Fetching?)
    case Save(t, _) => InPhase(s, t, (p: Phase) => p.Saving?)
    case Finish(t, _) => InPhase(s, t, (p: Phase) => p.Finishing?)
    case Crash(t) => InPhase(s, t, (p: Phase) => !p.Failing?)
    case Clear(t) => InPhase(s, t, (p: Phase) => p.Failing?)
  }

  function Apply(cfg: Settings, s: State, step: Step): State
    requires Enabled(s, step)
  {
    match step
    case Start(t) =>
      if !cfg.enabled || s.refreshing then s else s.(refreshing := true, threads := s.threads[t := Beginning])
    case Snapshot(t, now) =>
      if !cfg.enabled || s.refreshing || !RefreshDue(cfg, s, now) then s
      else s.(refreshing := true, threads := s.threads[t := Beginning])
    case Begin(t) =>
      s.(loaded := true, threads := s.threads[t := if s.loaded then Fetching(Payment, true) else Reading])
    case Read(t, result) =>
      s.(threads := s.threads[t := if result.Some? then Merging(result.value) else Fetching(Payment, true)])
    case Merge(t) =>
      s.(sections := Merged(s.sections, s.threads[t].stored), threads := s.threads[t := Fetching(Payment, true)])
    case Fetched(t, data, at) =>
      var name := s.threads[t].name;
      s.(sections := s.sections[name := Section(data, Some(at), true)], latest := s.latest[name := true],
         threads := s.threads[t := AfterFetch(name, s.threads[t].ok)])
    case FetchFailed(t) =>
      var name := s.threads[t].name;
      s.(sections := if name in s.sections then s.sections[name := s.sections[name].(live := false)] else s.sections,
         latest := s.latest[name := false], threads := s.threads[t := AfterFetch(name, false)])
    case Save(t, persisted) =>
      var ok := s.threads[t].ok;
      var wanted := ok || exists n :: n in s.sections && s.sections[n].live;
      s.(saved := if wanted && persisted then Payload(s.sections) else s.saved,
         threads := s.threads[t := Finishing(ok)])
    case Finish(t, now) =>
      s.(lastAttempt := Some(now), lastOk := s.threads[t].ok, refreshing := false, threads := s.threads - {t})
    case Crash(t) => s.(threads := s.threads[t := Failing])
    case Clear(t) => s.(refreshing := false, threads := s.threads - {t})
  }

  function Initial(saved: Stored): State {
    State(map[], false, false, None, true, map[], map[], saved)
  }

  /** At most one refresh is in flight and the flag says whether there is one; live means the latest fetch worked. */
  ghost predicate Inv(s: State) {
    && (forall t, u :: t in s.threads && u in s.threads ==> t == u)
    && (s.refreshing <==> s.threads != map[])
    && (forall n :: n in s.sections ==> (s.sections[n].live <==> n in s.latest && s.latest[n]))
    && (forall n :: n in s.latest && s.latest[n] ==> n in s.sections)
  }

  /** A run: each step applied to the state the one before left. */
  ghost predicate Runs(cfg: Settings, s: State, steps: seq<Step>)
    decreases |steps|
  {
    steps == [] || (Enabled(s, steps[0]) && Runs(cfg, Apply(cfg, s, steps[0]), steps[1..]))
  }

  ghost function End(cfg: Settings, s: State, steps: seq<Step>): State
    requires Runs(cfg, s, steps)
    decreases |steps|
  {
    if steps == [] then s else End(cfg, Apply(cfg, s, steps[0]), steps[1..])
  }

  lemma ThreadGone(threads: map<nat, Phase>, t: nat)
    requires t in threads && forall u :: u in threads ==> u == t
    ensures threads - {t} == map[]
  {
  }

  lemma StepKeepsInv(cfg: Settings, s: State, step: Step)
    requires Inv(s) && Enabled(s, step)
    ensures Inv(Apply(cfg, s, step))
  {
    if step.Finish? || step.Clear? {
      ThreadGone(s.threads, step.thread);
    }
    if !step.Start? && !step.Snapshot? {
      assert step.thread in s.threads;
    }
  }

  /** In every interleaving, from process start, at most one refresh runs and the live marks are truthful. */
  lemma {:induction false} RunKeepsInv(cfg: Settings, s: State, steps: seq<Step>)
    requires Inv(s) && Runs(cfg, s, steps)
    ensures Inv(End(cfg, s, steps))
    decreases |steps|
  {
    if steps != [] {
      StepKeepsInv(cfg, s, steps[0]);
      RunKeepsInv(cfg, Apply(cfg, s, steps[0]), steps[1..]);
    }
  }

  lemma AtMostOneRefresh(cfg: Settings, saved: Stored, steps: seq<Step>)
    requires Runs(cfg, Initial(saved), steps)
    ensures |End(cfg, Initial(saved), steps).threads| <= 1
  {
    RunKeepsInv(cfg, Initial(saved), steps);
    var threads := End(cfg, Initial(saved), steps).threads;
    if threads != map[] {
      var t :| t in threads;
      ThreadGone(threads, t);
      assert |threads| == |threads - {t}| + 1;
    }
  }

  /** The step writes this section from a document just fetched. */
  ghost predicate Fetches(s: State, step: Step, n: Name) {
    step.Fetched? && Enabled(s, step) && s.threads[step.thread].name == n
  }

  /** A known section is never lost, and its data changes only when a fresh document for it is fetched. */
  lemma KnownIsKept(cfg: Settings, s: State, step: Step, n: Name)
    requires Enabled(s, step) && n in s.sections
    ensures var after := Apply(cfg, s, step);
            && n in after.sections
            && (!Fetches(s, step, n) ==>
                  after.sections[n].data == s.sections[n].data
                  && after.sections[n].fetchedAt == s.sections[n].fetchedAt)
  {
  }

  lemma {:induction false} KnownForever(cfg: Settings, s: State, steps: seq<Step>, n: Name)
    requires Runs(cfg, s, steps) && n in s.sections
    ensures n in End(cfg, s, steps).sections
    decreases |steps|
  {
    if steps != [] {
      KnownIsKept(cfg, s, steps[0], n);
      KnownForever(cfg, Apply(cfg, s, steps[0]), steps[1..], n);
    }
  }

  datatype Status = Live | LastKnown | Partial | Unavailable

  datatype Info = Info(payment: Option<string>, freePath: Option<string>, status: Status, fetchedAt: Option<int>)

  function StatusOf(sections: map<Name, Section>): Status {
    if |sections| == 0 then Unavailable
    else if |sections| < 2 then Partial
    else if forall n :: n in sections ==> sections[n].live then Live
    else LastKnown
  }

  lemma TwoSections(sections: map<Name, Section>)
    ensures |sections| == 2 <==> Payment in sections && FreePath in sections
    ensures |sections| == 0 <==> Payment !in sections && FreePath !in sections
    ensures |sections| <= 2
  {
    var all := {Payment, FreePath};
    assert sections.Keys <= all by {
      forall n | n in sections.Keys ensures n in all { assert n.Payment? || n.FreePath?; }
    }
    assert |sections| == |sections.Keys| && |all| == 2;
    SubsetSize(sections.Keys, all);
    if sections.Keys != all { assert Payment !in sections || FreePath !in sections; }
    assert sections.Keys == {} <==> Payment !in sections && FreePath !in sections;
  }

  lemma SubsetSize(a: set<Name>, b: set<Name>)
    requires a <= b
    ensures |a| <= |b| && (|a| == |b| <==> a == b)
  {
    assert b == a + (b - a);
    assert |b| == |a| + |b - a|;
  }

  /** The status by the sections: none, one, two that are both live, or two. */
  lemma StatusTells(sections: map<Name, Section>)
    ensures StatusOf(sections) == Unavailable <==> Payment !in sections && FreePath !in sections
    ensures StatusOf(sections) == Partial <==> (Payment in sections <==> FreePath !in sections)
    ensures StatusOf(sections) == Live <==>
            Payment in sections && FreePath in sections && sections[Payment].live && sections[FreePath].live
  {
    TwoSections(sections);
    assert forall n :: n in sections ==> n == Payment || n == FreePath;
  }

  predicate Confirmed(s: State, n: Name) {
    n in s.sections && n in s.latest && s.latest[n]
  }

  /** The status is live exactly when both sections are present and each one's latest fetch here succeeded. */
  lemma LiveIsTruthful(cfg: Settings, saved: Stored, steps: seq<Step>)
    requires Runs(cfg, Initial(saved), steps)
    ensures var s := End(cfg, Initial(saved), steps);
            StatusOf(s.sections) == Live <==> Confirmed(s, Payment) && Confirmed(s, FreePath)
  {
    RunKeepsInv(cfg, Initial(saved), steps);
    var s := End(cfg, Initial(saved), steps);
    TwoSections(s.sections);
    assert forall n :: n in s.sections ==> n == Payment || n == FreePath;
  }

  /** Nobody calls `start` again, and every snapshot comes before the wait is over. */
  ghost predicate Early(steps: seq<Step>, until: real) {
    forall i :: 0 <= i < |steps| ==> !steps[i].Start? && (steps[i].Snapshot? ==> steps[i].now < until)
  }

  function Wait(cfg: Settings, s: State): real {
    if s.lastOk then cfg.ttl else cfg.backoff
  }

  /** After a completed attempt no snapshot starts another before the TTL, or the backoff, has passed. */
  lemma {:induction false} NoRefreshBeforeDue(cfg: Settings, s: State, steps: seq<Step>)
    requires s.threads == map[] && s.lastAttempt.Some?
    requires Runs(cfg, s, steps) && Early(steps, s.lastAttempt.value + Wait(cfg, s))
    ensures End(cfg, s, steps) == s
    decreases |steps|
  {
    if steps != [] {
      var step := steps[0];
      assert step.Snapshot?;
      assert !RefreshDue(cfg, s, step.now);
      assert Apply(cfg, s, step) == s;
      NoRefreshBeforeDue(cfg, s, steps[1..]);
    }
  }

  /**
   And once it has, the next snapshot starts one: exactly if refreshing is enabled, none runs, and there
   was no attempt yet or its wait is over.
   */
  lemma SnapshotStartsWhenDue(cfg: Settings, s: State, t: nat, now: real)
    requires Enabled(s, Snapshot(t, now))
    ensures var after := Apply(cfg, s, Snapshot(t, now));
            if cfg.enabled && !s.refreshing
               && (s.lastAttempt.None? || now >= s.lastAttempt.value + if s.lastOk then cfg.ttl else cfg.backoff)
            then after.refreshing && after.threads == s.threads[t := Beginning]
            else after == s
  { }

  /** What was saved comes back after a restart with the same facts, marked as not confirmed by this process. */
  lemma SavedComesBack(sections: map<Name, Section>, n: Name)
    ensures var back := Merged(map[], Payload(sections));
            && (n in back <==> n in sections)
            && (n in sections ==> back[n] == sections[n].(live := false))
  {
  }

  // ---- One refresh, step by step ----

  function FetchStep(t: nat, name: Name, fetched: map<Name, string>, at: int): Step {
    if name in fetched then Fetched(t, fetched[name], at) else FetchFailed(t)
  }

  /** Everything thread `t` does when it refreshes on its own, given what the database and the two fetches return. */
  function RefreshSteps(t: nat, loaded: bool, stored: Option<Stored>, fetched: map<Name, string>, at: int, now: real,
                        databaseUp: bool): seq<Step> {
    [Begin(t)]
    + (if loaded then [] else [Read(t, stored)] + if stored.Some? then [Merge(t)] else [])
    + [FetchStep(t, Payment, fetched, at), FetchStep(t, FreePath, fetched, at), Save(t, databaseUp), Finish(t, now)]
  }

  /** What is known once stored values have been read, if they had not been. */
  function Known(s: State, stored: Option<Stored>): map<Name, Section> {
    if s.loaded || stored.None? then s.sections else Merged(s.sections, stored.value)
  }

  function AfterBoth(known: map<Name, Section>, fetched: map<Name, string>, at: int): map<Name, Section> {
    map n | n in known.Keys + fetched.Keys ::
      if n in fetched then Section(fetched[n], Some(at), true) else known[n].(live := false)
  }

  /** The state a refresh on its own ends in. */
  function Refreshed(s: State, t: nat, stored: Option<Stored>, fetched: map<Name, string>, at: int, now: real,
                     databaseUp: bool): State {
    var sections := AfterBoth(Known(s, stored), fetched, at);
    State(sections, true, false, Some(now), Payment in fetched && FreePath in fetched, s.threads - {t},
          s.latest[Payment := Payment in fetched][FreePath := FreePath in fetched],
          if databaseUp && fetched != map[] then Payload(sections) else s.saved)
  }

  /** The steps can be taken one after another from `s`, and end in `end`. */
  ghost predicate Goes(cfg: Settings, s: State, steps: seq<Step>, end: State) {
    Runs(cfg, s, steps) && End(cfg, s, steps) == end
  }

  lemma StaysPut(cfg: Settings, s: State)
    ensures Goes(cfg, s, [], s)
  { }

  lemma GoesFirst(cfg: Settings, s: State, first: Step, after: State, rest: seq<Step>, end: State)
    requires Enabled(s, first) && Apply(cfg, s, first) == after && Goes(cfg, after, rest, end)
    ensures Goes(cfg, s, [first] + rest, end)
  {
    assert ([first] + rest)[1..] == rest;
  }

  function AfterOne(known: map<Name, Section>, name: Name, fetched: map<Name, string>, at: int): map<Name, Section> {
    if name in fetched then known[name := Section(fetched[name], Some(at), true)]
    else if name in known then known[name := known[name].(live := false)]
    else known
  }

  lemma OneFetched(cfg: Settings, s: State, t: nat, fetched: map<Name, string>, at: int)
    requires t in s.threads && s.threads[t].Fetching?
    ensures var name := s.threads[t].name;
            var step := FetchStep(t, name, fetched, at);
            Enabled(s, step) && Apply(cfg, s, step) ==
              s.(sections := AfterOne(s.sections, name, fetched, at), latest := s.latest[name := name in fetched],
                 threads := s.threads[t := AfterFetch(name, s.threads[t].ok && name in fetched)])
  { }

  lemma BothAreTwo(known: map<Name, Section>, fetched: map<Name, string>, at: int)
    ensures AfterOne(AfterOne(known, Payment, fetched, at), FreePath, fetched, at) == AfterBoth(known, fetched, at)
  {
    var two, both := AfterOne(AfterOne(known, Payment, fetched, at), FreePath, fetched, at),
                     AfterBoth(known, fetched, at);
    forall n: Name ensures (n in two <==> n in both) && (n in both ==> two[n] == both[n]) {
      assert n == Payment || n == FreePath;
    }
  }

  lemma NamesAreTwo(fetched: map<Name, string>)
    ensures fetched != map[] <==> Payment in fetched || FreePath in fetched
  {
    if fetched != map[] {
      var n :| n in fetched;
      assert n == Payment || n == FreePath;
    }
  }

  /** Something is live after both fetches exactly if one of them succeeded. */
  lemma LiveIfFetched(known: map<Name, Section>, fetched: map<Name, string>, at: int)
    ensures var both := AfterBoth(known, fetched, at);
            (exists n :: n in both && both[n].live) <==> fetched != map[]
  {
    var both := AfterBoth(known, fetched, at);
    if n :| n in fetched { assert n in both && both[n].live; }
  }

  lemma ThreadSet(threads: map<nat, Phase>, t: nat, p: Phase, q: Phase)
    ensures threads[t := p][t := q] == threads[t := q]
    ensures threads[t := p] - {t} == threads - {t}
  { }

  lemma SavedAndFinished(cfg: Settings, s: State, t: nat, databaseUp: bool, now: real)
    requires t in s.threads && s.threads[t].Saving?
    ensures var ok := s.threads[t].ok;
            var wanted := ok || exists n :: n in s.sections && s.sections[n].live;
            Goes(cfg, s, [Save(t, databaseUp), Finish(t, now)],
                 s.(saved := if wanted && databaseUp then Payload(s.sections) else s.saved,
                    lastAttempt := Some(now), lastOk := ok, refreshing := false, threads := s.threads - {t}))
  {
    var s1 := Apply(cfg, s, Save(t, databaseUp));
    var end := Apply(cfg, s1, Finish(t, now));
    ThreadSet(s.threads, t, Finishing(s.threads[t].ok), Beginning);
    StaysPut(cfg, end);
    GoesFirst(cfg, s1, Finish(t, now), end, [], end);
    assert [Finish(t, now)] + [] == [Finish(t, now)];
    GoesFirst(cfg, s, Save(t, databaseUp), s1, [Finish(t, now)], end);
    assert [Save(t, databaseUp)] + [Finish(t, now)] == [Save(t, databaseUp), Finish(t, now)];
  }

  function LastSteps(t: nat, fetched: map<Name, string>, at: int, now: real, databaseUp: bool): seq<Step> {
    [FetchStep(t, Payment, fetched, at)]
    + ([FetchStep(t, FreePath, fetched, at)] + [Save(t, databaseUp), Finish(t, now)])
  }

  /** From the first fetch on. */
  lemma FetchesEnd(cfg: Settings, s: State, t: nat, fetched: map<Name, string>, at: int, now: real, databaseUp: bool)
    requires t in s.threads && s.threads[t] == Fetching(Payment, true) && s.loaded
    ensures Goes(cfg, s, LastSteps(t, fetched, at, now, databaseUp),
                 Refreshed(s, t, None, fetched, at, now, databaseUp))
  {
    var one, two := FetchStep(t, Payment, fetched, at), FetchStep(t, FreePath, fetched, at);
    var s1 := Apply(cfg, s, one);
    OneFetched(cfg, s, t, fetched, at);
    var s2 := Apply(cfg, s1, two);
    OneFetched(cfg, s1, t, fetched, at);
    BothAreTwo(s.sections, fetched, at);
    LiveIfFetched(s.sections, fetched, at);
    NamesAreTwo(fetched);
    var saving := Saving(Payment in fetched && FreePath in fetched);
    ThreadSet(s.threads, t, s1.threads[t], saving);
    ThreadSet(s.threads, t, saving, saving);
    assert s2.threads == s.threads[t := saving];
    SavedAndFinished(cfg, s2, t, databaseUp, now);
    var end := Refreshed(s, t, None, fetched, at, now, databaseUp);
    GoesFirst(cfg, s1, two, s2, [Save(t, databaseUp), Finish(t, now)], end);
    GoesFirst(cfg, s, one, s1, [two] + [Save(t, databaseUp), Finish(t, now)], end);
  }

  /** A refresh that runs on its own does all its steps and ends in that state. */
  lemma RefreshRuns(cfg: Settings, s: State, t: nat, stored: Option<Stored>, fetched: map<Name, string>, at: int,
                    now: real, databaseUp: bool)
    requires t in s.threads && s.threads[t] == Beginning
    ensures Goes(cfg, s, RefreshSteps(t, s.loaded, stored, fetched, at, now, databaseUp),
                 Refreshed(s, t, stored, fetched, at, now, databaseUp))
  {
    var last, end := LastSteps(t, fetched, at, now, databaseUp), Refreshed(s, t, stored, fetched, at, now, databaseUp);
    var fetching := Fetching(Payment, true);
    ThreadSet(s.threads, t, fetching, fetching);
    ThreadSet(s.threads, t, Reading, fetching);
    var ready := s.(sections := Known(s, stored), loaded := true, threads := s.threads[t := fetching]);
    FetchesEnd(cfg, ready, t, fetched, at, now, databaseUp);
    assert Refreshed(ready, t, None, fetched, at, now, databaseUp) == end;
    if s.loaded {
      GoesFirst(cfg, s, Begin(t), ready, last, end);
    } else {
      var s1 := Apply(cfg, s, Begin(t));
      ReadAndMerge(cfg, s1, t, stored, ready, last, end);
      GoesFirst(cfg, s, Begin(t), s1, [Read(t, stored)] + ((if stored.Some? then [Merge(t)] else []) + last), end);
    }
    StepsRegroup(t, s.loaded, stored, fetched, at, now, databaseUp);
  }

  lemma ReadAndMerge(cfg: Settings, s: State, t: nat, stored: Option<Stored>, ready: State, last: seq<Step>, end: State)
    requires t in s.threads && s.threads[t] == Reading && Goes(cfg, ready, last, end)
    requires ready == s.(sections := if stored.None? then s.sections else Merged(s.sections, stored.value),
                         threads := s.threads[t := Fetching(Payment, true)])
    ensures Goes(cfg, s, [Read(t, stored)] + ((if stored.Some? then [Merge(t)] else []) + last), end)
  {
    var s1 := Apply(cfg, s, Read(t, stored));
    if stored.Some? {
      ThreadSet(s.threads, t, Merging(stored.value), Fetching(Payment, true));
      GoesFirst(cfg, s1, Merge(t), ready, last, end);
    } else {
      assert [] + last == last;
    }
    GoesFirst(cfg, s, Read(t, stored), s1, (if stored.Some? then [Merge(t)] else []) + last, end);
  }

  lemma StepsRegroup(t: nat, loaded: bool, stored: Option<Stored>, fetched: map<Name, string>, at: int, now: real,
                     databaseUp: bool)
    ensures var last, merge := LastSteps(t, fetched, at, now, databaseUp), if stored.Some? then [Merge(t)] else [];
            RefreshSteps(t, loaded, stored, fetched, at, now, databaseUp) ==
            [Begin(t)] + if loaded then last else [Read(t, stored)] + (merge + last)
  { }

  /** A restart after a save shows every section known when it was saved, with its facts, not live. */
  lemma RestartShowsWhatWasSaved(cfg: Settings, s: State, t: nat, u: nat, n: Name)
    requires cfg.enabled && Enabled(s, Save(t, true)) && n in s.sections
    requires s.threads[t].ok || exists m :: m in s.sections && s.sections[m].live
    ensures var saved := Apply(cfg, s, Save(t, true)).saved;
            var steps := [Start(u)] + ([Begin(u)] + ([Read(u, Some(saved))] + ([Merge(u)] + [])));
            Runs(cfg, Initial(saved), steps)
            && n in End(cfg, Initial(saved), steps).sections
            && End(cfg, Initial(saved), steps).sections[n] == s.sections[n].(live := false)
  {
    var saved := Apply(cfg, s, Save(t, true)).saved;
    var s0 := Initial(saved);
    var s1 := Apply(cfg, s0, Start(u));
    var s2 := Apply(cfg, s1, Begin(u));
    var s3 := Apply(cfg, s2, Read(u, Some(saved)));
    var end := Apply(cfg, s3, Merge(u));
    StaysPut(cfg, end);
    GoesFirst(cfg, s3, Merge(u), end, [], end);
    GoesFirst(cfg, s2, Read(u, Some(saved)), s3, [Merge(u)] + [], end);
    GoesFirst(cfg, s1, Begin(u), s2, [Read(u, Some(saved))] + ([Merge(u)] + []), end);
    GoesFirst(cfg, s0, Start(u), s1, [Begin(u)] + ([Read(u, Some(saved))] + ([Merge(u)] + [])), end);
    SavedComesBack(s.sections, n);
    assert end.sections == Merged(map[], Payload(s.sections));
  }

  /** Whatever thread refreshes `s` on its own, and whatever the latest outcomes were, it leaves `end`. */
  ghost predicate RefreshesTo(cfg: Settings, s: State, stored: Option<Stored>, fetched: map<Name, string>, at: int,
                              now: real, databaseUp: bool, end: State) {
    forall t: nat, latest: map<Name, bool> ::
      Goes(cfg, s.(threads := map[t := Beginning], latest := latest),
           RefreshSteps(t, s.loaded, stored, fetched, at, now, databaseUp),
           end.(threads := map[], latest := latest[Payment := Payment in fetched][FreePath := FreePath in fetched]))
  }

  lemma RefreshLeaves(cfg: Settings, s: State, stored: Option<Stored>, fetched: map<Name, string>, at: int, now: real,
                      databaseUp: bool, end: State)
    requires end.sections == AfterBoth(Known(s, stored), fetched, at) && end.loaded && !end.refreshing
    requires end.lastAttempt == Some(now)
    requires end.lastOk <==> Payment in fetched && FreePath in fetched
    requires end.saved == if databaseUp && fetched != map[] then Payload(end.sections) else s.saved
    ensures RefreshesTo(cfg, s, stored, fetched, at, now, databaseUp, end)
  {
    forall t: nat, latest: map<Name, bool>
      ensures Goes(cfg, s.(threads := map[t := Beginning], latest := latest),
                   RefreshSteps(t, s.loaded, stored, fetched, at, now, databaseUp),
                   end.(threads := map[],
                        latest := latest[Payment := Payment in fetched][FreePath := FreePath in fetched]))
    {
      var begin := s.(threads := map[t := Beginning], latest := latest);
      RefreshRuns(cfg, begin, t, stored, fetched, at, now, databaseUp);
      assert begin.threads - {t} == map[] && Known(begin, stored) == Known(s, stored);
    }
  }

  /** The module's globals; a refresh is given what its two fetches return. */
  class Cache {
    const cfg: Settings
    var sections: map<Name, Section>
    var loadedFromDb: bool
    var refreshing: bool
    var lastAttempt: Option<real>
    var lastAttemptOk: bool
    var stored: Option<Stored>

    constructor (cfg: Settings, stored: Option<Stored>)
      ensures this.cfg == cfg && this.stored == stored && sections == map[]
      ensures !loadedFromDb && !refreshing && lastAttempt == None && lastAttemptOk
    {
      this.cfg, this.stored := cfg, stored;
      sections, loadedFromDb, refreshing, lastAttempt, lastAttemptOk := map[], false, false, None, true;
    }

    /** Fills in what is not known yet, one stored section at a time. */
    method LoadFromDb()
      modifies this`sections, this`loadedFromDb
      ensures loadedFromDb
      ensures sections == if stored.None? then old(sections) else Merged(old(sections), stored.value)
    {
      loadedFromDb := true;
      if stored.None? { return; }
      var done: set<Name> := {};
      while done != stored.value.Keys
        invariant loadedFromDb && done <= stored.value.Keys
        invariant sections.Keys == old(sections.Keys) + done
        invariant forall n :: n in sections ==>
          sections[n] == if n in old(sections) then old(sections)[n]
                         else Section(stored.value[n].data, stored.value[n].fetchedAt, false)
        decreases stored.value.Keys - done
      {
        assert stored.value.Keys - done != {};
        var n :| n in stored.value.Keys - done;
        if n !in sections {
          sections := sections[n := Section(stored.value[n].data, stored.value[n].fetchedAt, false)];
        }
        done := done + {n};
      }
      assert sections.Keys == old(sections.Keys) + stored.value.Keys;
    }

    /** One fetch's outcome, recorded under the lock. */
    method Record(name: Name, document: Option<string>, at: int)
      modifies this`sections
      ensures sections.Keys == old(sections.Keys) + if document.Some? then {name} else {}
      ensures name in sections ==>
        (sections[name] == if document.Some? then Section(document.value, Some(at), true)
                           else old(sections)[name].(live := false))
      ensures forall n :: n in old(sections) && n != name ==> sections[n] == old(sections)[n]
    {
      if document.Some? {
        sections := sections[name := Section(document.value, Some(at), true)];
      } else if name in sections {
        sections := sections[name := sections[name].(live := false)];
      }
    }

    method FetchBoth(fetched: map<Name, string>, at: int) returns (ok: bool)
      modifies this`sections
      ensures ok <==> Payment in fetched && FreePath in fetched
      ensures sections == AfterBoth(old(sections), fetched, at)
    {
      ok := true;
      var names := [Payment, FreePath];
      for i := 0 to 2
        invariant ok <==> forall j :: 0 <= j < i ==> names[j] in fetched
        invariant forall n :: n in sections <==> n in old(sections) || (n in names[..i] && n in fetched)
        invariant forall n :: n in sections ==>
          (sections[n] == if n !in names[..i] then old(sections)[n]
                          else if n in fetched then Section(fetched[n], Some(at), true)
                               else old(sections)[n].(live := false))
      {
        var name := names[i];
        assert names[..i + 1] == names[..i] + [name];
        Record(name, if name in fetched then Some(fetched[name]) else None, at);
        ok := ok && name in fetched;
      }
      assert names[0] == Payment && names[1] == FreePath;
      forall n: Name ensures n in names[..2] { assert n == names[0] || n == names[1]; }
    }

    /** The state these fields stand for, no thread running and no outcome remembered. */
    ghost function AsState(): State
      reads this
    {
      State(sections, loadedFromDb, refreshing, lastAttempt, lastAttemptOk, map[], map[], GetOr(stored, map[]))
    }

    /**
     Fetches both documents; a section that fails keeps its value and is marked not live. The fields
     end as the steps of a refresh on its own end the state machine.
     */
    method Refresh(fetched: map<Name, string>, at: int, now: real, databaseUp: bool) returns (ok: bool)
      modifies this
      ensures ok <==> Payment in fetched && FreePath in fetched
      ensures sections == AfterBoth(Known(old(AsState()), old(stored)), fetched, at)
      ensures loadedFromDb && !refreshing && lastAttempt == Some(now) && lastAttemptOk == ok
      ensures stored == if databaseUp && fetched != map[] then Some(Payload(sections)) else old(stored)
      ensures RefreshesTo(cfg, old(AsState()), old(stored), fetched, at, now, databaseUp, AsState())
    {
      if !loadedFromDb { LoadFromDb(); }
      ok := FetchBoth(fetched, at);
      LiveIfFetched(Known(old(AsState()), old(stored)), fetched, at);
      NamesAreTwo(fetched);
      if ok || exists n :: n in sections && sections[n].live {
        SaveToDb(databaseUp);
      }
      lastAttempt, lastAttemptOk, refreshing := Some(now), ok, false;
      RefreshLeaves(cfg, old(AsState()), old(stored), fetched, at, now, databaseUp, AsState());
    }

    method SaveToDb(databaseUp: bool)
      modifies this`stored
      ensures stored == if databaseUp then Some(Payload(sections)) else old(stored)
    {
      var payload := Payload(sections);
      if databaseUp { stored := Some(payload); }
    }

    /** Starts a refresh unless one is running. */
    method Start() returns (started: bool)
      modifies this`refreshing
      ensures started <==> cfg.enabled && !old(refreshing)
      ensures refreshing == (old(refreshing) || started)
    {
      if !cfg.enabled || refreshing { return false; }
      refreshing := true;
      return true;
    }

    /** Reads memory only; starts a background refresh when one is due and none is running. */
    method Snapshot(now: real) returns (info: Info, started: bool)
      modifies this`refreshing
      ensures started <==>
              && cfg.enabled && !old(refreshing)
              && (lastAttempt.None? || now >= lastAttempt.value + if lastAttemptOk then cfg.ttl else cfg.backoff)
      ensures refreshing == (old(refreshing) || started)
      ensures info.status == StatusOf(sections)
      ensures info.status == Unavailable <==> Payment !in sections && FreePath !in sections
      ensures info.status == Partial <==> (Payment in sections <==> FreePath !in sections)
      ensures info.status == Live <==>
              Payment in sections && FreePath in sections && sections[Payment].live && sections[FreePath].live
      ensures info.payment == if Payment in sections then Some(sections[Payment].data) else None
      ensures info.freePath == if FreePath in sections then Some(sections[FreePath].data) else None
      ensures info.fetchedAt.Some? ==> exists n :: n in sections && sections[n].fetchedAt == info.fetchedAt
      ensures forall n :: n in sections && sections[n].fetchedAt.Some? ==>
        info.fetchedAt.Some? && info.fetchedAt.value <= sections[n].fetchedAt.value
    {
      started := false;
      if cfg.enabled && !refreshing {
        if lastAttempt.None? {
          started := true;
        } else {
          var wait := if lastAttemptOk then cfg.ttl else cfg.backoff;
          started := now - lastAttempt.value >= wait;
        }
        refreshing := started;
      }
      StatusTells(sections);
      var oldest: Option<int> := None;
      var payment: Option<string>, free: Option<string> := None, None;
      if Payment in sections {
        payment, oldest := Some(sections[Payment].data), sections[Payment].fetchedAt;
      }
      if FreePath in sections {
        free := Some(sections[FreePath].data);
        var at := sections[FreePath].fetchedAt;
        if at.Some? && (oldest.None? || at.value < oldest.value) { oldest := at; }
      }
      info := Info(payment, free, StatusOf(sections), oldest);
      forall n | n in sections && sections[n].fetchedAt.Some?
        ensures oldest.Some? && oldest.value <= sections[n].fetchedAt.value
      {
        assert n == Payment || n == FreePath;
      }
    }
  }
}
