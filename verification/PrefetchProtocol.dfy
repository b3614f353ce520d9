/**
  Nightly prefetch across replicas: a run takes a token-owned lease with a time to live, refreshes
  both detail families, and stores a completion marker, all before its own deadline.

  A state machine over the steps of every run, with one clock in milliseconds. The store may lose
  an answer after acting on it, refuse any command, or forget snapshots and markers at any time;
  a run may be cancelled or die at any point. A command whose sender no longer waits for it may
  still take effect: a write until `slack` after its deadline check, a release at any time.
*/
module PrefetchProtocol {

  datatype Config = Config(timeout: nat, slack: nat)

  datatype Family = Payroll | Progress

  const Plans: seq<Family> := [Payroll, Progress]

  /** What the lease is keyed by. The snapshot window is a function of the same day. */
  datatype Job = Job(tenant: string, day: int)

  datatype Phase = Warmup | Daily

  datatype Lease = Lease(token: nat, expires: int)

  datatype Pc =
    | Preparing
    | Looking
    | Refreshing
    | Publishing(checked: int)
    | Landed(ok: bool)
    | Marking(checked: int)
    | Marked(ok: bool)
    | Releasing(retry: bool)
    | Finished(retry: bool)

  /** One execution of `run_once`; `results` are the write results of the plans done so far. */
  datatype Run = Run(job: Job, phase: Phase, deadline: int, pc: Pc, expires: int, results: seq<bool>)

  datatype Write = Snapshot(family: Family) | Marker(phase: Phase)

  /**
    A write that took effect: whether its writer held the unexpired lease at that moment, and
    whether the writer's release had taken effect before it.
  */
  datatype Entry = Entry(run: nat, job: Job, what: Write, held: bool, freed: bool)

  /** A write that was sent and that nobody waits for any more. */
  datatype Stray = Stray(run: nat, job: Job, what: Write, checked: int)

  /** `freed` are the runs whose release took effect, `owing` those whose release is on its way. */
  datatype State = State(
    clock: int, leases: map<Job, Lease>, stored: set<(Job, Write)>, runs: map<nat, Run>, log: seq<Entry>,
    adrift: set<Stray>, freed: set<nat>, owing: set<nat>)

  datatype Action =
    | Tick(elapsed: nat)
    | Begin(id: nat, job: Job, phase: Phase)
    | Acquire(id: nat, acknowledged: bool)
    | Refused(id: nat)
    | SeeMarker(id: nat)
    | NoMarker(id: nat)
    | Skip(id: nat)
    | CheckWrite(id: nat)
    | Land(id: nat, acknowledged: bool)
    | Bounce(id: nat)
    | Proceed(id: nat)
    | Conclude(id: nat)
    | Abort(id: nat)
    | Release(id: nat, delivered: bool)
    | LateRelease(id: nat)
    | Drift(stray: Stray)
    | Die(id: nat)
    | Forget(job: Job, what: Write)

  /** Seconds are rounded up before the thirty-second margin is added. */
  function LeaseTtl(c: Config): nat { (c.timeout + 999) / 1000 * 1000 + 30000 }

  function Initial(now: int): State { State(now, map[], {}, map[], [], {}, {}, {}) }

  predicate Live(s: State, job: Job) { job in s.leases && s.clock < s.leases[job].expires }

  predicate Holds(s: State, id: nat, job: Job) { Live(s, job) && s.leases[job].token == id }

  predicate Inside(pc: Pc) { !pc.Preparing? && !pc.Finished? }

  predicate AllWritten(r: Run) { r.results == [true, true] }

  predicate Enabled(c: Config, s: State, a: Action) {
    match a
    case Tick(_) => true
    case Begin(id, _, _) => id !in s.runs
    case Forget(_, _) => true
    case Acquire(id, _) => id in s.runs && s.runs[id].pc.Preparing? && !Live(s, s.runs[id].job)
    case Refused(id) => id in s.runs && s.runs[id].pc.Preparing?
    case SeeMarker(id) =>
      id in s.runs && var r := s.runs[id]; r.pc.Looking? && (r.job, Marker(r.phase)) in s.stored && s.clock < r.deadline
    case NoMarker(id) => id in s.runs && s.runs[id].pc.Looking? && s.clock < s.runs[id].deadline
    case Skip(id) => id in s.runs && var r := s.runs[id]; r.pc.Refreshing? && |r.results| < 2 && s.clock < r.deadline
    case CheckWrite(id) =>
      id in s.runs &&
      var r := s.runs[id];
      r.pc.Refreshing? && (|r.results| < 2 || AllWritten(r)) && s.clock < r.deadline
    case Land(id, _) =>
      id in s.runs && var pc := s.runs[id].pc; (pc.Publishing? || pc.Marking?) && s.clock <= pc.checked + c.slack
    case Bounce(id) => id in s.runs && var pc := s.runs[id].pc; pc.Publishing? || pc.Marking?
    case Proceed(id) => id in s.runs && var r := s.runs[id]; (r.pc.Landed? || r.pc.Marked?) && s.clock < r.deadline
    case Conclude(id) => id in s.runs && var r := s.runs[id]; r.pc.Refreshing? && |r.results| == 2 && !AllWritten(r)
    case Abort(id) => id in s.runs && !s.runs[id].pc.Finished?
    case Release(id, _) => id in s.runs && s.runs[id].pc.Releasing?
    case LateRelease(id) => id in s.runs && id in s.owing
    case Drift(stray) => stray in s.adrift && s.clock <= stray.checked + c.slack
    case Die(id) => id in s.runs && !s.runs[id].pc.Finished?
  }

  function With(s: State, id: nat, r: Run): State { s.(runs := s.runs[id := r]) }

  function Target(r: Run): Write {
    if |r.results| == 0 then Snapshot(Payroll) else if |r.results| == 1 then Snapshot(Progress) else Marker(r.phase)
  }

  /** A write takes effect: it is stored and logged. */
  function Effect(s: State, id: nat, job: Job, what: Write): State {
    s.(stored := s.stored + {(job, what)}, log := s.log + [Entry(id, job, what, Holds(s, id, job), id in s.freed)])
  }

  /** A run that stops waiting for its write sets it adrift. */
  function Abandoned(id: nat, r: Run): set<Stray> {
    if r.pc.Publishing? || r.pc.Marking? then {Stray(id, r.job, Target(r), r.pc.checked)} else {}
  }

  function LetGo(s: State, id: nat): State
    requires id in s.runs
  {
    s.(adrift := s.adrift + Abandoned(id, s.runs[id]))
  }

  /** A release takes effect: it frees the lease only under its own token. */
  function Free(s: State, id: nat): State
    requires id in s.runs
  {
    var job := s.runs[id].job;
    s.(leases := if job in s.leases && s.leases[job].token == id then s.leases - {job} else s.leases,
       freed := s.freed + {id}, owing := s.owing - {id})
  }

  function Do(c: Config, s: State, a: Action): State
    requires Enabled(c, s, a)
  {
    match a
    case Tick(elapsed) => s.(clock := s.clock + elapsed)
    case Begin(id, job, phase) =>
      With(s, id, Run(job, phase, s.clock + c.timeout, Preparing, s.clock, []))
    case Forget(job, what) => s.(stored := s.stored - {(job, what)})
    case Acquire(id, acknowledged) =>
      var r := s.runs[id];
      var expires := s.clock + LeaseTtl(c);
      var taken := s.(leases := s.leases[r.job := Lease(id, expires)]);
      With(taken, id, if acknowledged then r.(pc := Looking, expires := expires) else r.(pc := Finished(true)))
    case Refused(id) => With(s, id, s.runs[id].(pc := Finished(true)))
    case SeeMarker(id) => With(s, id, s.runs[id].(pc := Releasing(false)))
    case NoMarker(id) => With(s, id, s.runs[id].(pc := Refreshing))
    case Skip(id) => With(s, id, s.runs[id].(results := s.runs[id].results + [false]))
    case CheckWrite(id) =>
      var r := s.runs[id];
      With(s, id, r.(pc := if |r.results| < 2 then Publishing(s.clock) else Marking(s.clock)))
    case Land(id, acknowledged) =>
      var r := s.runs[id];
      With(Effect(s, id, r.job, Target(r)), id,
           r.(pc := if r.pc.Publishing? then Landed(acknowledged) else Marked(acknowledged)))
    case Bounce(id) =>
      var r := s.runs[id];
      With(LetGo(s, id), id, r.(pc := if r.pc.Publishing? then Landed(false) else Marked(false)))
    case Proceed(id) =>
      var r := s.runs[id];
      With(s, id, if r.pc.Landed? then r.(pc := Refreshing, results := r.results + [r.pc.ok])
                  else r.(pc := Releasing(!r.pc.ok)))
    case Conclude(id) => With(s, id, s.runs[id].(pc := Releasing(true)))
    case Abort(id) =>
      var r := s.runs[id];
      With(LetGo(s, id), id, r.(pc := if Inside(r.pc) then Releasing(true) else Finished(true)))
    case Release(id, delivered) =>
      var r := s.runs[id];
      With(if delivered then Free(s, id) else s.(owing := s.owing + {id}), id, r.(pc := Finished(r.pc.retry)))
    case LateRelease(id) => Free(s, id)
    case Drift(stray) => Effect(s.(adrift := s.adrift - {stray}), stray.run, stray.job, stray.what)
    case Die(id) => With(LetGo(s, id), id, s.runs[id].(pc := Finished(true)))
  }

  // ---------------------------------------------------------------- runs of the whole system

  ghost predicate Possible(c: Config, s: State, actions: seq<Action>)
    decreases |actions|
  {
    actions == [] || (Enabled(c, s, actions[0]) && Possible(c, Do(c, s, actions[0]), actions[1..]))
  }

  ghost function Final(c: Config, s: State, actions: seq<Action>): State
    requires Possible(c, s, actions)
    decreases |actions|
  {
    if actions == [] then s else Final(c, Do(c, s, actions[0]), actions[1..])
  }

  // ---------------------------------------------------------------- what every step keeps

  ghost predicate Logged(s: State, id: nat, what: Write) {
    exists i :: 0 <= i < |s.log| && s.log[i].run == id && s.log[i].what == what
  }

  ghost predicate MarkerLogged(s: State, job: Job, phase: Phase) {
    exists i :: 0 <= i < |s.log| && s.log[i].job == job && s.log[i].what == Marker(phase)
  }

  /** Until its lease expires, the run owns it; and it expires late enough. */
  ghost predicate Keeps(c: Config, s: State, id: nat, r: Run) {
    && r.expires >= r.deadline - c.timeout + LeaseTtl(c)
    && (s.clock < r.expires ==> r.job in s.leases && s.leases[r.job] == Lease(id, r.expires))
  }

  /** A run inside the protected section has not freed its lease. */
  ghost predicate LeaseOk(c: Config, s: State, id: nat, r: Run) {
    && (Inside(r.pc) ==> id !in s.freed && Keeps(c, s, id, r))
    && (id in s.freed || id in s.owing ==> r.pc.Finished?)
    && (id in s.freed ==> !(r.job in s.leases && s.leases[r.job].token == id))
  }

  /** A write adrift was checked in time, belongs to a run and, for a marker, follows both families. */
  ghost predicate StrayOk(c: Config, s: State, w: Stray) {
    && w.run in s.runs && !s.runs[w.run].pc.Preparing? && w.job == s.runs[w.run].job &&
       w.checked < s.runs[w.run].deadline
    && (w.run !in s.freed ==> Keeps(c, s, w.run, s.runs[w.run]))
    && (w.what.Marker? ==> Logged(s, w.run, Snapshot(Payroll)) && Logged(s, w.run, Snapshot(Progress)))
  }

  ghost predicate StraysOk(c: Config, s: State) {
    && (forall w :: w in s.adrift ==> StrayOk(c, s, w))
    && s.freed <= s.runs.Keys && s.owing <= s.runs.Keys
  }

  /** The program counter, the results so far and the log tell the same story. */
  ghost predicate StoryOk(s: State, id: nat, r: Run) {
    && |r.results| <= 2
    && ((r.pc.Publishing? || r.pc.Landed?) ==> |r.results| < 2)
    && ((r.pc.Marking? || r.pc.Marked?) ==> AllWritten(r))
    && ((r.pc.Publishing? || r.pc.Marking?) ==> r.pc.checked < r.deadline)
    && (r.pc.Landed? && r.pc.ok ==> Logged(s, id, Target(r)))
    && (r.pc.Marked? && r.pc.ok ==> MarkerLogged(s, r.job, r.phase))
    && (forall k :: 0 <= k < |r.results| && r.results[k] ==> Logged(s, id, Snapshot(Plans[k])))
    && ((r.pc == Releasing(false) || r.pc == Finished(false)) ==> MarkerLogged(s, r.job, r.phase))
  }

  ghost predicate LogOk(s: State) {
    forall i :: 0 <= i < |s.log| ==>
      var e := s.log[i];
      && (e.held <==> !e.freed)
      && e.run in s.runs && s.runs[e.run].job == e.job && !s.runs[e.run].pc.Preparing?
      && (e.what.Marker? ==> LoggedBefore(s.log, i, e.run, Payroll) && LoggedBefore(s.log, i, e.run, Progress))
  }

  ghost predicate LoggedBefore(log: seq<Entry>, n: nat, id: nat, family: Family)
    requires n <= |log|
  {
    exists i :: 0 <= i < n && log[i].run == id && log[i].what == Snapshot(family)
  }

  /** Once another run has written for a job under the lease, an earlier writer no longer holds it. */
  ghost predicate Overtaken(s: State) {
    forall i, j :: 0 <= i < j < |s.log| && s.log[i].job == s.log[j].job && s.log[i].run != s.log[j].run ==>
      s.log[j].held ==> !Holds(s, s.log[i].run, s.log[i].job)
  }

  /** The held writes for one job come in uninterrupted blocks, one per run. */
  ghost predicate SerialWhenHeld(log: seq<Entry>) {
    forall i, j, k :: 0 <= i < j < k < |log| && log[i].job == log[j].job == log[k].job && log[i].run == log[k].run ==>
      log[j].held && log[k].held ==> log[j].run == log[i].run
  }

  /** The writes for one job come in uninterrupted blocks, one per run. */
  ghost predicate Serial(log: seq<Entry>) {
    forall i, j, k :: 0 <= i < j < k < |log| && log[i].job == log[j].job == log[k].job && log[i].run == log[k].run ==>
      log[j].run == log[i].run
  }

  ghost predicate MarkersJustified(s: State) {
    forall job, phase :: (job, Marker(phase)) in s.stored ==> MarkerLogged(s, job, phase)
  }

  ghost predicate RunsOk(c: Config, s: State) {
    forall id :: id in s.runs ==> LeaseOk(c, s, id, s.runs[id]) && StoryOk(s, id, s.runs[id])
  }

  ghost predicate Inv(c: Config, s: State) {
    RunsOk(c, s) && StraysOk(c, s) && LogOk(s) && Overtaken(s) && SerialWhenHeld(s.log) && MarkersJustified(s)
  }

  /** The margin: a write lands within the lease's life whatever the delay the store may add. */
  ghost predicate Timely(c: Config) { c.slack <= LeaseTtl(c) - c.timeout }

  /** A write its run waits for takes effect under the run's unexpired lease. */
  lemma WriterHolds(c: Config, s: State, id: nat, acknowledged: bool)
    requires Inv(c, s) && Timely(c) && Enabled(c, s, Land(id, acknowledged))
    ensures Holds(s, id, s.runs[id].job) && id !in s.freed
  {
    assert LeaseOk(c, s, id, s.runs[id]) && StoryOk(s, id, s.runs[id]);
  }

  /** A write adrift takes effect under its run's lease exactly when the run's release has not. */
  lemma StrayHolds(c: Config, s: State, w: Stray)
    requires Inv(c, s) && Timely(c) && Enabled(c, s, Drift(w))
    ensures w.run in s.runs && (Holds(s, w.run, w.job) <==> w.run !in s.freed)
  {
    assert StrayOk(c, s, w);
    assert LeaseOk(c, s, w.run, s.runs[w.run]);
  }

  lemma LoggedStays(s: State, t: State, id: nat, what: Write)
    requires s.log <= t.log && Logged(s, id, what)
    ensures Logged(t, id, what)
  {
    var i :| 0 <= i < |s.log| && s.log[i].run == id && s.log[i].what == what;
    assert t.log[i] == s.log[i];
  }

  lemma MarkerLoggedStays(s: State, t: State, job: Job, phase: Phase)
    requires s.log <= t.log && MarkerLogged(s, job, phase)
    ensures MarkerLogged(t, job, phase)
  {
    var i :| 0 <= i < |s.log| && s.log[i].job == job && s.log[i].what == Marker(phase);
    assert t.log[i] == s.log[i];
  }

  /** A longer log does not disturb a run's story. */
  lemma StoryStays(s: State, t: State, id: nat, r: Run)
    requires s.log <= t.log && StoryOk(s, id, r)
    ensures StoryOk(t, id, r)
  {
    if r.pc.Landed? && r.pc.ok {
      LoggedStays(s, t, id, Target(r));
    }
    if r.pc.Marked? && r.pc.ok {
      MarkerLoggedStays(s, t, r.job, r.phase);
    }
    if r.pc == Releasing(false) || r.pc == Finished(false) {
      MarkerLoggedStays(s, t, r.job, r.phase);
    }
    forall k | 0 <= k < |r.results| && r.results[k]
      ensures Logged(t, id, Snapshot(Plans[k]))
    {
      LoggedStays(s, t, id, Snapshot(Plans[k]));
    }
  }

  /** What a step must leave in place for the strays to stay in order. */
  lemma StrayStays(c: Config, s: State, t: State, w: Stray)
    requires StrayOk(c, s, w) && s.log <= t.log && w.run in t.runs && !t.runs[w.run].pc.Preparing?
    requires t.runs[w.run].job == s.runs[w.run].job && t.runs[w.run].deadline == s.runs[w.run].deadline
    requires t.runs[w.run].expires == s.runs[w.run].expires
    requires w.run !in t.freed ==>
             w.run !in s.freed && (Keeps(c, s, w.run, s.runs[w.run]) ==> Keeps(c, t, w.run, t.runs[w.run]))
    ensures StrayOk(c, t, w)
  {
    if w.what.Marker? {
      LoggedStays(s, t, w.run, Snapshot(Payroll));
      LoggedStays(s, t, w.run, Snapshot(Progress));
    }
  }

  /** A step that moves one run, and may set its write adrift. */
  lemma MoveKeeps(c: Config, s: State, id: nat, r: Run, more: set<Stray>)
    requires Inv(c, s) && id in s.runs
    requires r.job == s.runs[id].job && !r.pc.Preparing? && r.deadline == s.runs[id].deadline
    requires !s.runs[id].pc.Preparing? ==> r.expires == s.runs[id].expires
    requires LeaseOk(c, s, id, r) && StoryOk(s, id, r)
    requires forall w :: w in more ==> !s.runs[id].pc.Preparing? && StrayOk(c, s, w)
    ensures Inv(c, With(s.(adrift := s.adrift + more), id, r))
  {
    var t := With(s.(adrift := s.adrift + more), id, r);
    forall other | other in t.runs
      ensures LeaseOk(c, t, other, t.runs[other]) && StoryOk(t, other, t.runs[other])
    {
      StoryStays(s, t, other, t.runs[other]);
    }
    forall w | w in t.adrift
      ensures StrayOk(c, t, w)
    {
      StrayStays(c, s, t, w);
    }
  }

  lemma StillKeeps(c: Config, s: State, id: nat, r: Run)
    requires Inv(c, s) && id in s.runs
    requires r.job == s.runs[id].job && !r.pc.Preparing? && r.deadline == s.runs[id].deadline
    requires r.expires == s.runs[id].expires && LeaseOk(c, s, id, r) && StoryOk(s, id, r)
    ensures Inv(c, With(s, id, r))
  {
    MoveKeeps(c, s, id, r, {});
    assert s.(adrift := s.adrift + {}) == s;
  }

  /** Steps that touch no run: time passes, or the store forgets. */
  lemma AsideKeeps(c: Config, s: State, a: Action)
    requires Inv(c, s) && (a.Tick? || a.Forget?) && Enabled(c, s, a)
    ensures Inv(c, Do(c, s, a))
  {
    var t := Do(c, s, a);
    forall id | id in t.runs
      ensures LeaseOk(c, t, id, t.runs[id]) && StoryOk(t, id, t.runs[id])
    {
      StoryStays(s, t, id, t.runs[id]);
    }
    forall w | w in t.adrift
      ensures StrayOk(c, t, w)
    {
      StrayStays(c, s, t, w);
    }
  }

  lemma BeginKeeps(c: Config, s: State, id: nat, job: Job, phase: Phase)
    requires Inv(c, s) && Enabled(c, s, Begin(id, job, phase))
    ensures Inv(c, Do(c, s, Begin(id, job, phase)))
  {
    var t := Do(c, s, Begin(id, job, phase));
    forall other | other in t.runs
      ensures LeaseOk(c, t, other, t.runs[other]) && StoryOk(t, other, t.runs[other])
    {
      StoryStays(s, t, other, t.runs[other]);
    }
    forall w | w in t.adrift
      ensures StrayOk(c, t, w)
    {
      StrayStays(c, s, t, w);
    }
  }

  /** Deadlines are set when a run begins, so a later acquisition expires late enough. */
  ghost predicate Begun(c: Config, s: State) {
    forall id :: id in s.runs ==> s.runs[id].deadline <= s.clock + c.timeout
  }

  lemma AcquireKeeps(c: Config, s: State, id: nat, acknowledged: bool)
    requires Inv(c, s) && Begun(c, s) && Enabled(c, s, Acquire(id, acknowledged))
    ensures Inv(c, Do(c, s, Acquire(id, acknowledged)))
  {
    var t := Do(c, s, Acquire(id, acknowledged));
    forall other | other in t.runs
      ensures LeaseOk(c, t, other, t.runs[other]) && StoryOk(t, other, t.runs[other])
    {
      assert LeaseOk(c, s, other, s.runs[other]);
      StoryStays(s, t, other, t.runs[other]);
    }
    forall w | w in t.adrift
      ensures StrayOk(c, t, w)
    {
      StrayStays(c, s, t, w);
    }
  }

  /** A release that takes effect disturbs nobody but its own run. */
  lemma FreeKeeps(c: Config, s: State, id: nat)
    requires Inv(c, s) && id in s.runs && s.runs[id].pc.Finished?
    ensures Inv(c, Free(s, id))
  {
    var t := Free(s, id);
    forall other | other in t.runs
      ensures LeaseOk(c, t, other, t.runs[other]) && StoryOk(t, other, t.runs[other])
    {
      assert LeaseOk(c, s, other, s.runs[other]);
      StoryStays(s, t, other, t.runs[other]);
    }
    forall w | w in t.adrift
      ensures StrayOk(c, t, w)
    {
      StrayStays(c, s, t, w);
    }
  }

  lemma OwingKeeps(c: Config, s: State, id: nat)
    requires Inv(c, s) && id in s.runs && s.runs[id].pc.Finished?
    ensures Inv(c, s.(owing := s.owing + {id}))
  {
    var t := s.(owing := s.owing + {id});
    forall other | other in t.runs
      ensures LeaseOk(c, t, other, t.runs[other]) && StoryOk(t, other, t.runs[other])
    {
      StoryStays(s, t, other, t.runs[other]);
    }
    forall w | w in t.adrift
      ensures StrayOk(c, t, w)
    {
      StrayStays(c, s, t, w);
    }
  }

  lemma ReleaseKeeps(c: Config, s: State, id: nat, delivered: bool)
    requires Inv(c, s) && Enabled(c, s, Release(id, delivered))
    ensures Inv(c, Do(c, s, Release(id, delivered)))
  {
    var r := s.runs[id].(pc := Finished(s.runs[id].pc.retry));
    assert LeaseOk(c, s, id, s.runs[id]) && StoryOk(s, id, s.runs[id]);
    StillKeeps(c, s, id, r);
    var moved := With(s, id, r);
    if delivered {
      FreeKeeps(c, moved, id);
      assert Do(c, s, Release(id, delivered)) == Free(moved, id);
    } else {
      OwingKeeps(c, moved, id);
      assert Do(c, s, Release(id, delivered)) == moved.(owing := moved.owing + {id});
    }
  }

  // ---------------------------------------------------------------- writes that take effect

  /** Facts about a write about to take effect, whoever waits for it. */
  ghost predicate Lands(s: State, id: nat, job: Job, what: Write) {
    && id in s.runs && s.runs[id].job == job && !s.runs[id].pc.Preparing?
    && (Holds(s, id, job) <==> id !in s.freed)
    && (what.Marker? ==> Logged(s, id, Snapshot(Payroll)) && Logged(s, id, Snapshot(Progress)))
  }

  lemma EffectLog(s: State, id: nat, job: Job, what: Write)
    requires LogOk(s) && Lands(s, id, job, what)
    ensures LogOk(Effect(s, id, job, what))
  {
    var t := Effect(s, id, job, what);
    var n := |s.log|;
    forall i | 0 <= i < |t.log|
      ensures
        var e := t.log[i];
        && (e.held <==> !e.freed) && e.run in t.runs && t.runs[e.run].job == e.job && !t.runs[e.run].pc.Preparing?
        && (e.what.Marker? ==> LoggedBefore(t.log, i, e.run, Payroll) && LoggedBefore(t.log, i, e.run, Progress))
    {
      if i < n {
        assert t.log[i] == s.log[i];
        if s.log[i].what.Marker? {
          EarlierStays(s.log, t.log, i, s.log[i].run, Payroll);
          EarlierStays(s.log, t.log, i, s.log[i].run, Progress);
        }
      } else if what.Marker? {
        LoggedIsEarlier(s, t, id, Payroll);
        LoggedIsEarlier(s, t, id, Progress);
      }
    }
  }

  lemma EarlierStays(before: seq<Entry>, after: seq<Entry>, n: nat, id: nat, family: Family)
    requires before <= after && n <= |before| && LoggedBefore(before, n, id, family)
    ensures LoggedBefore(after, n, id, family)
  {
    var i :| 0 <= i < n && before[i].run == id && before[i].what == Snapshot(family);
    assert after[i] == before[i];
  }

  lemma LoggedIsEarlier(s: State, t: State, id: nat, family: Family)
    requires s.log <= t.log && Logged(s, id, Snapshot(family))
    ensures LoggedBefore(t.log, |s.log|, id, family)
  {
    var i :| 0 <= i < |s.log| && s.log[i].run == id && s.log[i].what == Snapshot(family);
    assert t.log[i] == s.log[i];
  }

  lemma EffectOrder(s: State, id: nat, job: Job, what: Write)
    requires Overtaken(s) && SerialWhenHeld(s.log)
    ensures Overtaken(Effect(s, id, job, what)) && SerialWhenHeld(Effect(s, id, job, what).log)
  {
    var t := Effect(s, id, job, what);
    assert forall i :: 0 <= i < |s.log| ==> t.log[i] == s.log[i];
    assert t.log[|s.log|].held <==> Holds(s, id, job);
  }

  lemma EffectMarkers(s: State, id: nat, job: Job, what: Write)
    requires MarkersJustified(s)
    ensures MarkersJustified(Effect(s, id, job, what))
  {
    var t := Effect(s, id, job, what);
    forall wanted, phase | (wanted, Marker(phase)) in t.stored
      ensures MarkerLogged(t, wanted, phase)
    {
      if (wanted, Marker(phase)) in s.stored {
        MarkerLoggedStays(s, t, wanted, phase);
      } else {
        assert t.log[|s.log|].what == Marker(phase) && t.log[|s.log|].job == wanted;
      }
    }
  }

  lemma EffectKeeps(c: Config, s: State, id: nat, job: Job, what: Write)
    requires Inv(c, s) && Lands(s, id, job, what)
    ensures Inv(c, Effect(s, id, job, what)) && Logged(Effect(s, id, job, what), id, what)
    ensures what.Marker? ==> MarkerLogged(Effect(s, id, job, what), job, what.phase)
  {
    var t := Effect(s, id, job, what);
    assert t.log[|s.log|] == Entry(id, job, what, Holds(s, id, job), id in s.freed);
    EffectLog(s, id, job, what);
    EffectOrder(s, id, job, what);
    EffectMarkers(s, id, job, what);
    forall other | other in t.runs
      ensures LeaseOk(c, t, other, t.runs[other]) && StoryOk(t, other, t.runs[other])
    {
      StoryStays(s, t, other, t.runs[other]);
    }
    forall w | w in t.adrift
      ensures StrayOk(c, t, w)
    {
      StrayStays(c, s, t, w);
    }
  }

  lemma LandLands(c: Config, s: State, id: nat, acknowledged: bool)
    requires Inv(c, s) && Timely(c) && Enabled(c, s, Land(id, acknowledged))
    ensures Lands(s, id, s.runs[id].job, Target(s.runs[id]))
  {
    WriterHolds(c, s, id, acknowledged);
    MarkerFollows(c, s, id);
  }

  /** A run that writes its marker has written both families. */
  lemma MarkerFollows(c: Config, s: State, id: nat)
    requires Inv(c, s) && id in s.runs && (s.runs[id].pc.Publishing? || s.runs[id].pc.Marking?)
    ensures Target(s.runs[id]).Marker? ==> Logged(s, id, Snapshot(Payroll)) && Logged(s, id, Snapshot(Progress))
  {
    var r := s.runs[id];
    assert StoryOk(s, id, r);
    if Target(r).Marker? {
      assert r.results == [true, true];
      assert Logged(s, id, Snapshot(Plans[0])) && Logged(s, id, Snapshot(Plans[1]));
    }
  }

  function LandedRun(r: Run, acknowledged: bool): Run {
    r.(pc := if r.pc.Publishing? then Landed(acknowledged) else Marked(acknowledged))
  }

  /** Once its write has taken effect, a run may believe that it has. */
  lemma LandedStory(s: State, id: nat, r: Run, acknowledged: bool)
    requires StoryOk(s, id, r) && (r.pc.Publishing? || r.pc.Marking?) && Logged(s, id, Target(r))
    requires Target(r).Marker? ==> MarkerLogged(s, r.job, r.phase)
    ensures StoryOk(s, id, LandedRun(r, acknowledged))
  {
  }

  lemma LandKeeps(c: Config, s: State, id: nat, acknowledged: bool)
    requires Inv(c, s) && Timely(c) && Enabled(c, s, Land(id, acknowledged))
    ensures Inv(c, Do(c, s, Land(id, acknowledged)))
  {
    var r := s.runs[id];
    LandLands(c, s, id, acknowledged);
    EffectKeeps(c, s, id, r.job, Target(r));
    LandedKeeps(c, Effect(s, id, r.job, Target(r)), id, acknowledged);
  }

  lemma LandedLease(c: Config, s: State, id: nat, r: Run, acknowledged: bool)
    requires LeaseOk(c, s, id, r) && (r.pc.Publishing? || r.pc.Marking?)
    ensures LeaseOk(c, s, id, LandedRun(r, acknowledged))
  {
  }

  lemma LandedKeeps(c: Config, t: State, id: nat, acknowledged: bool)
    requires Inv(c, t) && id in t.runs && (t.runs[id].pc.Publishing? || t.runs[id].pc.Marking?)
    requires Logged(t, id, Target(t.runs[id]))
    requires Target(t.runs[id]).Marker? ==> MarkerLogged(t, t.runs[id].job, t.runs[id].phase)
    ensures Inv(c, With(t, id, LandedRun(t.runs[id], acknowledged)))
  {
    var r := t.runs[id];
    assert LeaseOk(c, t, id, r) && StoryOk(t, id, r);
    LandedStory(t, id, r, acknowledged);
    LandedLease(c, t, id, r, acknowledged);
    StillKeeps(c, t, id, LandedRun(r, acknowledged));
  }

  lemma DriftKeeps(c: Config, s: State, w: Stray)
    requires Inv(c, s) && Timely(c) && Enabled(c, s, Drift(w))
    ensures Inv(c, Do(c, s, Drift(w)))
  {
    StrayHolds(c, s, w);
    assert StrayOk(c, s, w);
    var t := s.(adrift := s.adrift - {w});
    AwayKeeps(c, s, w);
    assert Logged(s, w.run, Snapshot(Payroll)) ==> Logged(t, w.run, Snapshot(Payroll));
    assert Logged(s, w.run, Snapshot(Progress)) ==> Logged(t, w.run, Snapshot(Progress));
    EffectKeeps(c, t, w.run, w.job, w.what);
  }

  lemma AwayKeeps(c: Config, s: State, w: Stray)
    requires Inv(c, s)
    ensures Inv(c, s.(adrift := s.adrift - {w}))
  {
    var t := s.(adrift := s.adrift - {w});
    forall id | id in t.runs
      ensures LeaseOk(c, t, id, t.runs[id]) && StoryOk(t, id, t.runs[id])
    {
      StoryStays(s, t, id, t.runs[id]);
    }
    forall other | other in t.adrift
      ensures StrayOk(c, t, other)
    {
      StrayStays(c, s, t, other);
    }
  }

  predicate Moving(a: Action) {
    a.Refused? || a.SeeMarker? || a.NoMarker? || a.Skip? || a.CheckWrite? || a.Bounce? || a.Proceed? || a.Conclude? ||
      a.Abort? || a.Die?
  }

  function Dropped(s: State, a: Action): set<Stray>
    requires Moving(a) && a.id in s.runs
  {
    if a.Bounce? || a.Abort? || a.Die? then Abandoned(a.id, s.runs[a.id]) else {}
  }

  /** The steps that only move one run: its new story follows from its old one. */
  lemma QuietStep(c: Config, s: State, a: Action)
    requires Inv(c, s) && Enabled(c, s, a) && Moving(a)
    ensures a.id in s.runs && Do(c, s, a) == With(s.(adrift := s.adrift + Dropped(s, a)), a.id, Do(c, s, a).runs[a.id])
    ensures var r := Do(c, s, a).runs[a.id];
            && r.job == s.runs[a.id].job && !r.pc.Preparing? && r.deadline == s.runs[a.id].deadline
            && r.expires == s.runs[a.id].expires && LeaseOk(c, s, a.id, r)
  {
    assert LeaseOk(c, s, a.id, s.runs[a.id]);
    assert s.adrift + {} == s.adrift;
  }

  lemma QuietStory(c: Config, s: State, a: Action)
    requires Inv(c, s) && Enabled(c, s, a) && Moving(a)
    ensures a.id in s.runs && StoryOk(s, a.id, Do(c, s, a).runs[a.id])
  {
    assert StoryOk(s, a.id, s.runs[a.id]);
    assert Plans[0] == Payroll && Plans[1] == Progress;
  }

  /** What a run sets adrift was checked in time, under a lease the run has not freed. */
  lemma DroppedOk(c: Config, s: State, a: Action, w: Stray)
    requires Inv(c, s) && Enabled(c, s, a) && Moving(a) && w in Dropped(s, a)
    ensures !s.runs[a.id].pc.Preparing? && StrayOk(c, s, w)
  {
    var r := s.runs[a.id];
    assert LeaseOk(c, s, a.id, r) && StoryOk(s, a.id, r);
    MarkerFollows(c, s, a.id);
  }

  lemma QuietKeeps(c: Config, s: State, a: Action)
    requires Inv(c, s) && Enabled(c, s, a) && Moving(a)
    ensures Inv(c, Do(c, s, a))
  {
    QuietStep(c, s, a);
    QuietStory(c, s, a);
    forall w | w in Dropped(s, a)
      ensures !s.runs[a.id].pc.Preparing? && StrayOk(c, s, w)
    {
      DroppedOk(c, s, a, w);
    }
    MoveKeeps(c, s, a.id, Do(c, s, a).runs[a.id], Dropped(s, a));
  }

  lemma LateReleaseKeeps(c: Config, s: State, id: nat)
    requires Inv(c, s) && Enabled(c, s, LateRelease(id))
    ensures Inv(c, Do(c, s, LateRelease(id)))
  {
    assert LeaseOk(c, s, id, s.runs[id]);
    FreeKeeps(c, s, id);
  }

  lemma StepKeeps(c: Config, s: State, a: Action)
    requires Inv(c, s) && Begun(c, s) && Timely(c) && Enabled(c, s, a)
    ensures Inv(c, Do(c, s, a))
  {
    match a
    case Tick(_) => AsideKeeps(c, s, a);
    case Forget(_, _) => AsideKeeps(c, s, a);
    case Begin(id, job, phase) => BeginKeeps(c, s, id, job, phase);
    case Acquire(id, acknowledged) => AcquireKeeps(c, s, id, acknowledged);
    case Release(id, delivered) => ReleaseKeeps(c, s, id, delivered);
    case LateRelease(id) => LateReleaseKeeps(c, s, id);
    case Land(id, acknowledged) => LandKeeps(c, s, id, acknowledged);
    case Drift(stray) => DriftKeeps(c, s, stray);
    case _ => QuietKeeps(c, s, a);
  }

  lemma StepBegun(c: Config, s: State, a: Action)
    requires Begun(c, s) && Enabled(c, s, a)
    ensures Begun(c, Do(c, s, a))
  {
  }

  lemma {:induction false} RunKeeps(c: Config, s: State, actions: seq<Action>)
    requires Inv(c, s) && Begun(c, s) && Timely(c) && Possible(c, s, actions)
    ensures Inv(c, Final(c, s, actions))
    decreases |actions|
  {
    if actions != [] {
      StepKeeps(c, s, actions[0]);
      StepBegun(c, s, actions[0]);
      RunKeeps(c, Do(c, s, actions[0]), actions[1..]);
    }
  }

  // ---------------------------------------------------------------- safety of every run

  /** A marker for this job and phase, after both families by the same run, is in the log. */
  ghost predicate Completed(s: State, job: Job, phase: Phase) {
    exists i :: 0 <= i < |s.log| && s.log[i].job == job && s.log[i].what == Marker(phase)
             && LoggedBefore(s.log, i, s.log[i].run, Payroll)
             && LoggedBefore(s.log, i, s.log[i].run, Progress)
  }

  ghost predicate AllHeld(s: State) { forall i :: 0 <= i < |s.log| ==> s.log[i].held }

  lemma HeldIsSerial(log: seq<Entry>)
    requires SerialWhenHeld(log) && forall i :: 0 <= i < |log| ==> log[i].held
    ensures Serial(log)
  {
  }

  /**
    In every interleaving, from an empty store: a snapshot or marker was written under its writer's
    unexpired lease exactly if it took effect before its writer's release did; if all were, the
    writes for one factory-day are never interleaved between runs; a stored marker was written by a
    run that had already written both families for that day; and a run ends without asking for a
    retry only when its day and phase were completed.
  */
  lemma PrefetchIsSafe(c: Config, now: int, actions: seq<Action>)
    requires Timely(c) && Possible(c, Initial(now), actions)
    ensures var s := Final(c, Initial(now), actions);
            && (forall i :: 0 <= i < |s.log| ==> (s.log[i].held <==> !s.log[i].freed))
            && SerialWhenHeld(s.log) && (AllHeld(s) ==> Serial(s.log))
            && (forall job, phase :: (job, Marker(phase)) in s.stored ==> Completed(s, job, phase))
            && (forall id :: id in s.runs && s.runs[id].pc == Finished(false) ==>
                  Completed(s, s.runs[id].job, s.runs[id].phase))
  {
    RunKeeps(c, Initial(now), actions);
    var s := Final(c, Initial(now), actions);
    if AllHeld(s) {
      HeldIsSerial(s.log);
    }
    forall job, phase | MarkerLogged(s, job, phase)
      ensures Completed(s, job, phase)
    {
      var i :| 0 <= i < |s.log| && s.log[i].job == job && s.log[i].what == Marker(phase);
    }
    forall id | id in s.runs && s.runs[id].pc == Finished(false)
      ensures Completed(s, s.runs[id].job, s.runs[id].phase)
    {
      assert StoryOk(s, id, s.runs[id]);
    }
  }

  /** No write takes effect after its run's release has. */
  ghost predicate Orderly(c: Config, s: State, actions: seq<Action>)
    requires Possible(c, s, actions)
    decreases |actions|
  {
    actions == [] ||
    (!(actions[0].Drift? && actions[0].stray.run in s.freed) && Orderly(c, Do(c, s, actions[0]), actions[1..]))
  }

  lemma StepHolds(c: Config, s: State, a: Action)
    requires Inv(c, s) && Timely(c) && Enabled(c, s, a)
    ensures s.log <= Do(c, s, a).log
    ensures AllHeld(s) ==> (AllHeld(Do(c, s, a)) <==> !(a.Drift? && a.stray.run in s.freed))
  {
    var t := Do(c, s, a);
    if a.Land? {
      WriterHolds(c, s, a.id, a.acknowledged);
    } else if a.Drift? {
      StrayHolds(c, s, a.stray);
      assert t.log[|s.log|].held <==> Holds(s, a.stray.run, a.stray.job);
    }
  }

  lemma {:induction false} UnheldStays(c: Config, s: State, actions: seq<Action>)
    requires Inv(c, s) && Begun(c, s) && Timely(c) && Possible(c, s, actions) && !AllHeld(s)
    ensures !AllHeld(Final(c, s, actions))
    decreases |actions|
  {
    if actions != [] {
      var t := Do(c, s, actions[0]);
      StepHolds(c, s, actions[0]);
      StepKeeps(c, s, actions[0]);
      StepBegun(c, s, actions[0]);
      var i :| 0 <= i < |s.log| && !s.log[i].held;
      assert t.log[i] == s.log[i];
      UnheldStays(c, t, actions[1..]);
    }
  }

  lemma {:induction false} OrderlyFrom(c: Config, s: State, actions: seq<Action>)
    requires Inv(c, s) && Begun(c, s) && Timely(c) && Possible(c, s, actions) && AllHeld(s)
    ensures AllHeld(Final(c, s, actions)) <==> Orderly(c, s, actions)
    decreases |actions|
  {
    if actions != [] {
      var t := Do(c, s, actions[0]);
      StepHolds(c, s, actions[0]);
      StepKeeps(c, s, actions[0]);
      StepBegun(c, s, actions[0]);
      if AllHeld(t) {
        OrderlyFrom(c, t, actions[1..]);
      } else {
        UnheldStays(c, t, actions[1..]);
      }
    }
  }

  /**
    Every write of every run is made under its writer's lease, and the writes of a factory-day never
    interleave, if and only if no write takes effect after its run's release.
  */
  lemma SafeExactlyIfOrderly(c: Config, now: int, actions: seq<Action>)
    requires Timely(c) && Possible(c, Initial(now), actions)
    ensures var s := Final(c, Initial(now), actions);
            AllHeld(s) && Serial(s.log) <==> Orderly(c, Initial(now), actions)
  {
    OrderlyFrom(c, Initial(now), actions);
    PrefetchIsSafe(c, now, actions);
  }

  /** The thirty seconds added to the rounded timeout are what a late write may use. */
  lemma MarginSuffices(c: Config)
    requires c.slack <= 30000
    ensures Timely(c)
  {
    assert (c.timeout + 999) / 1000 * 1000 >= c.timeout;
  }

  /** The steps of one run that checks its deadline at the last moment and lands `slack` later. */
  function LateWrite(c: Config): seq<Action>
    requires c.timeout >= 1
  {
    [Begin(0, Job("factory", 0), Daily), Acquire(0, true), NoMarker(0), Tick(c.timeout - 1), CheckWrite(0),
     Tick(c.slack), Land(0, true)]
  }

  function LateRun(c: Config, pc: Pc): Run {
    Run(Job("factory", 0), Daily, c.timeout, pc, if pc.Preparing? then 0 else LeaseTtl(c), [])
  }

  /** The states that run goes through. */
  function LateState(c: Config, k: nat): State
    requires c.timeout >= 1 && k <= 7
  {
    var job := Job("factory", 0);
    if k == 0 then Initial(0)
    else
      var pc := if k == 1 then Preparing else if k == 2 then Looking else if k <= 4 then Refreshing
                else if k <= 6 then Publishing(c.timeout - 1) else Landed(true);
      State(if k < 4 then 0 else if k < 6 then c.timeout - 1 else c.timeout - 1 + c.slack,
            if k == 1 then map[] else map[job := Lease(0, LeaseTtl(c))],
            if k == 7 then {(job, Snapshot(Payroll))} else {},
            map[0 := LateRun(c, pc)],
            if k == 7 then [Entry(0, job, Snapshot(Payroll), false, false)] else [], {}, {}, {})
  }

  lemma LateStep(c: Config, k: nat)
    requires c.timeout >= 1 && !Timely(c) && k < 7
    ensures Enabled(c, LateState(c, k), LateWrite(c)[k])
    ensures Do(c, LateState(c, k), LateWrite(c)[k]) == LateState(c, k + 1)
  {
    var s, t := Do(c, LateState(c, k), LateWrite(c)[k]), LateState(c, k + 1);
    assert s.runs == t.runs && s.leases == t.leases && s.stored == t.stored && s.log == t.log;
  }

  lemma {:induction false} LateFrom(c: Config, k: nat)
    requires c.timeout >= 1 && !Timely(c) && k <= 7
    ensures Possible(c, LateState(c, k), LateWrite(c)[k..])
    ensures Final(c, LateState(c, k), LateWrite(c)[k..]) == LateState(c, 7)
    decreases 7 - k
  {
    if k < 7 {
      LateStep(c, k);
      LateFrom(c, k + 1);
      assert LateWrite(c)[k..][0] == LateWrite(c)[k] && LateWrite(c)[k..][1..] == LateWrite(c)[k + 1..];
    }
  }

  /** Beyond the margin the guarantee is lost: the bound on `slack` is exact. */
  lemma LateWriteEscapes(c: Config)
    requires c.timeout >= 1 && !Timely(c)
    ensures Possible(c, Initial(0), LateWrite(c))
    ensures var s := Final(c, Initial(0), LateWrite(c)); |s.log| == 1 && !s.log[0].held
  {
    LateFrom(c, 0);
    assert LateWrite(c)[0..] == LateWrite(c);
  }

  /** Until it expires, a lease is changed by nothing but its own holder's release. */
  lemma OnlyTheHolderFrees(c: Config, s: State, a: Action, job: Job)
    requires Enabled(c, s, a) && Live(s, job)
    requires !((a.Release? || a.LateRelease?) && a.id == s.leases[job].token)
    ensures job in Do(c, s, a).leases && Do(c, s, a).leases[job] == s.leases[job]
  {
  }

  // ---------------------------------------------------------------- nothing blocks a free job

  /** A run that succeeds: it takes the lease, writes both families and the marker, and lets go. */
  function AloneAt(id: nat, job: Job, phase: Phase, k: nat): Action
    requires k < 13
  {
    if k == 0 then Begin(id, job, phase)
    else if k == 1 then Acquire(id, true)
    else if k == 2 then NoMarker(id)
    else if k == 12 then Release(id, true)
    else if k % 3 == 0 then CheckWrite(id)
    else if k % 3 == 1 then Land(id, true)
    else Proceed(id)
  }

  function Alone(id: nat, job: Job, phase: Phase): seq<Action> {
    seq(13, k requires 0 <= k < 13 => AloneAt(id, job, phase, k))
  }

  function WriteAt(phase: Phase, n: nat): Write {
    if n == 0 then Snapshot(Payroll) else if n == 1 then Snapshot(Progress) else Marker(phase)
  }

  /** The state in which `s` leaves such a run after `n` writes. */
  function Written(s: State, id: nat, job: Job, phase: Phase, n: nat): State {
    if n == 0 then s
    else
      var t := Written(s, id, job, phase, n - 1);
      t.(stored := t.stored + {(job, WriteAt(phase, n - 1))}, log := t.log +
         [Entry(id, job, WriteAt(phase, n - 1), true, id in s.freed)])
  }

  function Landings(k: nat): nat { if k < 5 then 0 else if k < 8 then 1 else if k < 11 then 2 else 3 }

  function AlonePc(clock: int, k: nat): Pc {
    if k == 1 then Preparing else if k == 2 then Looking
    else if k == 12 then Releasing(false) else if k >= 13 then Finished(false)
    else if k == 11 then Marked(true) else if k == 10 then Marking(clock)
    else if k % 3 == 0 then Refreshing else if k % 3 == 1 then Publishing(clock) else Landed(true)
  }

  function AloneRun(c: Config, clock: int, job: Job, phase: Phase, k: nat): Run {
    Run(job, phase, clock + c.timeout, AlonePc(clock, k), if k < 2 then clock else clock + LeaseTtl(c),
        if k < 6 then [] else if k < 9 then [true] else [true, true])
  }

  /** The state after the first `k` steps. */
  function AloneState(c: Config, s: State, id: nat, job: Job, phase: Phase, k: nat): State {
    if k == 0 then s
    else
      var t := Written(s, id, job, phase, Landings(k));
      var lease := Lease(id, s.clock + LeaseTtl(c));
      var leases := if k < 2 then s.leases else if k < 13 then s.leases[job := lease] else s.leases - {job};
      t.(leases := leases, runs := s.runs[id := AloneRun(c, s.clock, job, phase, k)],
         freed := if k < 13 then s.freed else s.freed + {id}, owing := if k < 13 then s.owing else s.owing - {id})
  }

  lemma {:induction false} WrittenKeeps(s: State, id: nat, job: Job, phase: Phase, n: nat)
    ensures var t := Written(s, id, job, phase, n);
            && t.clock == s.clock && t.leases == s.leases && t.runs == s.runs
            && t.adrift == s.adrift && t.freed == s.freed && t.owing == s.owing
            && s.stored <= t.stored && (forall i :: 0 <= i < n ==> (job, WriteAt(phase, i)) in t.stored)
  {
    if n > 0 {
      WrittenKeeps(s, id, job, phase, n - 1);
    }
  }

  ghost predicate AloneMoves(c: Config, s: State, id: nat, job: Job, phase: Phase, k: nat)
    requires k < 13
  {
    && Enabled(c, AloneState(c, s, id, job, phase, k), AloneAt(id, job, phase, k))
    && Do(c, AloneState(c, s, id, job, phase, k), AloneAt(id, job, phase, k)) == AloneState(c, s, id, job, phase, k + 1)
  }

  lemma SameState(a: State, b: State)
    requires a.clock == b.clock && a.leases == b.leases && a.stored == b.stored && a.runs == b.runs && a.log == b.log
    requires a.adrift == b.adrift && a.freed == b.freed && a.owing == b.owing
    ensures a == b
  {
  }

  /** Taking and freeing the lease. */
  lemma AloneEnds(c: Config, s: State, id: nat, job: Job, phase: Phase, k: nat)
    requires c.timeout >= 1 && id !in s.runs && !Live(s, job) && (k < 3 || k == 12)
    ensures AloneMoves(c, s, id, job, phase, k)
  {
    var now, goal := AloneState(c, s, id, job, phase, k), AloneState(c, s, id, job, phase, k + 1);
    WrittenKeeps(s, id, job, phase, Landings(k));
    var next := Do(c, now, AloneAt(id, job, phase, k));
    assert next.runs == goal.runs;
    assert next.leases == goal.leases;
    SameState(next, goal);
  }

  /** The deadline check before a write. */
  lemma AloneChecks(c: Config, s: State, id: nat, job: Job, phase: Phase, k: nat)
    requires c.timeout >= 1 && id !in s.runs && k in {3, 6, 9}
    ensures AloneMoves(c, s, id, job, phase, k)
  {
    var now, goal := AloneState(c, s, id, job, phase, k), AloneState(c, s, id, job, phase, k + 1);
    WrittenKeeps(s, id, job, phase, Landings(k));
    var next := Do(c, now, AloneAt(id, job, phase, k));
    assert next.runs == goal.runs;
    SameState(next, goal);
  }

  /** Going on after a write. */
  lemma AloneProceeds(c: Config, s: State, id: nat, job: Job, phase: Phase, k: nat)
    requires c.timeout >= 1 && id !in s.runs && k in {5, 8, 11}
    ensures AloneMoves(c, s, id, job, phase, k)
  {
    var now, goal := AloneState(c, s, id, job, phase, k), AloneState(c, s, id, job, phase, k + 1);
    WrittenKeeps(s, id, job, phase, Landings(k));
    assert [] + [true] == [true] && [true] + [true] == [true, true];
    var next := Do(c, now, AloneAt(id, job, phase, k));
    assert next.runs == goal.runs;
    SameState(next, goal);
  }

  lemma AloneLands(c: Config, s: State, id: nat, job: Job, phase: Phase, k: nat)
    requires c.timeout >= 1 && id !in s.runs && k in {4, 7, 10}
    ensures AloneMoves(c, s, id, job, phase, k)
  {
    var now, goal := AloneState(c, s, id, job, phase, k), AloneState(c, s, id, job, phase, k + 1);
    WrittenKeeps(s, id, job, phase, Landings(k));
    assert Target(now.runs[id]) == WriteAt(phase, Landings(k)) && Holds(now, id, job);
    var next := Do(c, now, AloneAt(id, job, phase, k));
    assert next.runs == goal.runs;
    SameState(next, goal);
  }

  lemma AloneStep(c: Config, s: State, id: nat, job: Job, phase: Phase, k: nat)
    requires c.timeout >= 1 && id !in s.runs && !Live(s, job) && k < 13
    ensures AloneMoves(c, s, id, job, phase, k)
  {
    if k < 3 || k == 12 {
      AloneEnds(c, s, id, job, phase, k);
    } else if k % 3 == 1 {
      AloneLands(c, s, id, job, phase, k);
    } else if k % 3 == 0 {
      AloneChecks(c, s, id, job, phase, k);
    } else {
      AloneProceeds(c, s, id, job, phase, k);
    }
  }

  lemma {:induction false} AloneFrom(c: Config, s: State, id: nat, job: Job, phase: Phase, k: nat)
    requires c.timeout >= 1 && id !in s.runs && !Live(s, job) && k <= 13
    ensures Possible(c, AloneState(c, s, id, job, phase, k), Alone(id, job, phase)[k..])
    ensures Final(c, AloneState(c, s, id, job, phase, k), Alone(id, job, phase)[k..]) ==
            AloneState(c, s, id, job, phase, 13)
    decreases 13 - k
  {
    if k < 13 {
      AloneStep(c, s, id, job, phase, k);
      AloneFrom(c, s, id, job, phase, k + 1);
      assert Alone(id, job, phase)[k..][0] == AloneAt(id, job, phase, k);
      assert Alone(id, job, phase)[k..][1..] == Alone(id, job, phase)[k + 1..];
    }
  }

  /**
    Whatever happened before, and whoever died holding what: once a job's lease is free or has
    expired, a new run can complete the job, ask for no retry and free the lease. The schedule shown
    finds no marker, lets every command succeed, and takes no time.
  */
  lemma FreeJobCompletes(c: Config, s: State, id: nat, job: Job, phase: Phase)
    requires c.timeout >= 1 && id !in s.runs && !Live(s, job)
    ensures Possible(c, s, Alone(id, job, phase))
    ensures var t := Final(c, s, Alone(id, job, phase));
            && {(job, Snapshot(Payroll)), (job, Snapshot(Progress)), (job, Marker(phase))} <= t.stored
            && id in t.runs && t.runs[id].pc == Finished(false) && job !in t.leases && t.clock == s.clock
            && t == AloneState(c, s, id, job, phase, 13)
  {
    AloneFrom(c, s, id, job, phase, 0);
    assert Alone(id, job, phase)[0..] == Alone(id, job, phase);
    WrittenKeeps(s, id, job, phase, 3);
    var t := AloneState(c, s, id, job, phase, 13);
    assert (job, WriteAt(phase, 0)) in t.stored && (job, WriteAt(phase, 1)) in t.stored &&
           (job, WriteAt(phase, 2)) in t.stored;
  }

  // ---------------------------------------------------------------- a cancelled write escapes

  lemma {:induction false} OneMore(c: Config, s: State, actions: seq<Action>, a: Action)
    requires Possible(c, s, actions) && Enabled(c, Final(c, s, actions), a)
    ensures Possible(c, s, actions + [a]) && Final(c, s, actions + [a]) == Do(c, Final(c, s, actions), a)
    decreases |actions|
  {
    var all := actions + [a];
    if actions == [] {
      assert all[1..] == [];
      assert Possible(c, Do(c, s, a), all[1..]);
    } else {
      assert all[1..] == actions[1..] + [a];
      OneMore(c, Do(c, s, actions[0]), actions[1..], a);
    }
  }

  lemma {:induction false} ThenMore(c: Config, s: State, first: seq<Action>, second: seq<Action>)
    requires Possible(c, s, first) && Possible(c, Final(c, s, first), second)
    ensures Possible(c, s, first + second) && Final(c, s, first + second) == Final(c, Final(c, s, first), second)
    decreases |first|
  {
    if first == [] {
      assert first + second == second;
    } else {
      assert (first + second)[1..] == first[1..] + second;
      ThenMore(c, Do(c, s, first[0]), first[1..], second);
    }
  }

  const Today: Job := Job("factory", 0)

  /** Run 0 writes one family, is cancelled while it writes the other, and frees its lease. */
  const Cancelled: seq<Action> :=
    [Begin(0, Today, Daily), Acquire(0, true), NoMarker(0), CheckWrite(0), Land(0, true), Proceed(0), CheckWrite(0),
     Abort(0), Release(0, true)]

  function CancelledRun(c: Config, k: nat): Run {
    Run(Today, Daily, c.timeout,
        if k == 1 then Preparing else if k == 2 then Looking else if k == 3 || k == 6 then Refreshing
        else if k == 4 || k == 7 then Publishing(0) else if k == 5 then Landed(true)
        else if k == 8 then Releasing(true) else Finished(true),
        if k == 1 then 0 else LeaseTtl(c), if k < 6 then [] else [true])
  }

  const Straggler: Stray := Stray(0, Today, Snapshot(Progress), 0)

  function CancelledState(c: Config, k: nat): State {
    if k == 0 then Initial(0)
    else
      State(0, if 2 <= k <= 8 then map[Today := Lease(0, LeaseTtl(c))] else map[],
            if k >= 5 then {(Today, Snapshot(Payroll))} else {}, map[0 := CancelledRun(c, k)],
            if k >= 5 then [Entry(0, Today, Snapshot(Payroll), true, false)] else [],
            if k >= 8 then {Straggler} else {}, if k >= 9 then {0} else {}, {})
  }

  ghost predicate CancelledMoves(c: Config, actions: seq<Action>, k: nat)
    requires k < |actions|
  {
    Enabled(c, CancelledState(c, k), actions[k]) && Do(c, CancelledState(c, k), actions[k]) == CancelledState(c, k + 1)
  }

  lemma CancelledStarts(c: Config, actions: seq<Action>, k: nat)
    requires c.timeout >= 1 && actions == Cancelled && k < 5
    ensures CancelledMoves(c, actions, k)
  {
    assert [] + [true] == [true];
    var next, goal := Do(c, CancelledState(c, k), actions[k]), CancelledState(c, k + 1);
    assert next.runs == goal.runs && next.leases == goal.leases && next.log == goal.log;
    SameState(next, goal);
  }

  lemma CancelledEnds(c: Config, actions: seq<Action>, k: nat)
    requires c.timeout >= 1 && actions == Cancelled && 5 <= k < 9
    ensures CancelledMoves(c, actions, k)
  {
    assert [] + [true] == [true];
    var next, goal := Do(c, CancelledState(c, k), actions[k]), CancelledState(c, k + 1);
    assert next.runs == goal.runs && next.leases == goal.leases && next.log == goal.log;
    SameState(next, goal);
  }

  lemma {:induction false} CancelledFrom(c: Config, actions: seq<Action>, k: nat)
    requires c.timeout >= 1 && actions == Cancelled && k <= 9
    ensures Possible(c, CancelledState(c, k), actions[k..])
    ensures Final(c, CancelledState(c, k), actions[k..]) == CancelledState(c, 9)
    decreases 9 - k
  {
    if k < 9 {
      if k < 5 {
        CancelledStarts(c, actions, k);
      } else {
        CancelledEnds(c, actions, k);
      }
      CancelledFrom(c, actions, k + 1);
      assert actions[k..][0] == actions[k] && actions[k..][1..] == actions[k + 1..];
    }
  }

  function Escape(): seq<Action> { Cancelled + Alone(1, Today, Daily) + [Drift(Straggler)] }

  /**
    However short the slack: a write that is cancelled in flight, as the deadline does, may take
    effect after the lease was freed and another run has written the same day. It is then written
    without a lease, and the other run's writes stand in the middle of its own run's.
  */
  lemma CancelledWriteEscapes(c: Config)
    requires c.timeout >= 1
    ensures Possible(c, Initial(0), Escape())
    ensures var s := Final(c, Initial(0), Escape()); !AllHeld(s) && !Serial(s.log)
  {
    var actions := Cancelled;
    CancelledFrom(c, actions, 0);
    assert actions[0..] == actions;
    var s := CancelledState(c, 9);
    FreeJobCompletes(c, s, 1, Today, Daily);
    ThenMore(c, Initial(0), actions, Alone(1, Today, Daily));
    var t := Final(c, s, Alone(1, Today, Daily));
    EscapeLog(c, s, t);
    OneMore(c, Initial(0), actions + Alone(1, Today, Daily), Drift(Straggler));
    var u := Do(c, t, Drift(Straggler));
    assert u.log[0].run == 0 && u.log[1].run == 1 && u.log[4].run == 0;
    assert u.log[0].job == u.log[1].job == u.log[4].job == Today;
  }

  /** After the other run: four writes, the straggler still adrift and its run's lease gone. */
  lemma EscapeLog(c: Config, s: State, t: State)
    requires c.timeout >= 1 && s == CancelledState(c, 9) && t == AloneState(c, s, 1, Today, Daily, 13)
    ensures |t.log| == 4 && t.log[0].run == 0 && t.log[0].job == Today && t.log[1].run == 1 && t.log[1].job == Today
    ensures Straggler in t.adrift && t.clock == 0 && Today !in t.leases
  {
    WrittenKeeps(s, 1, Today, Daily, 3);
    assert |Written(s, 1, Today, Daily, 1).log| == 2;
    assert Written(s, 1, Today, Daily, 2).log[..2] == Written(s, 1, Today, Daily, 1).log;
    assert Written(s, 1, Today, Daily, 3).log[..3] == Written(s, 1, Today, Daily, 2).log;
    assert t.log[1] == Written(s, 1, Today, Daily, 2).log[1];
  }

  // ---------------------------------------------------------------- the clock and the store

  /** The lease lasts thirty seconds more than the run may, counted in whole seconds that are not fewer. */
  lemma LeaseTtlExactly(c: Config)
    ensures LeaseTtl(c) % 1000 == 0 && c.timeout + 30000 <= LeaseTtl(c) < c.timeout + 31000
  {
    assert (c.timeout + 999) / 1000 * 1000 <= c.timeout + 999 < (c.timeout + 999) / 1000 * 1000 + 1000;
  }

  /** From its deadline on a run reads no marker, skips no family, sends no write and counts none as done. */
  lemma NothingAfterDeadline(c: Config, s: State, id: nat, a: Action)
    requires id in s.runs && s.clock >= s.runs[id].deadline
    requires a in {SeeMarker(id), NoMarker(id), Skip(id), CheckWrite(id), Proceed(id)}
    ensures !Enabled(c, s, a)
  {
  }

  /** A write that was sent may be refused, timed out on or cancelled at any moment, and is adrift from then on. */
  lemma SentMayBeLost(c: Config, s: State, id: nat, a: Action)
    requires id in s.runs && (s.runs[id].pc.Publishing? || s.runs[id].pc.Marking?)
    requires a in {Bounce(id), Abort(id), Die(id)}
    ensures Enabled(c, s, a)
    ensures Stray(id, s.runs[id].job, Target(s.runs[id]), s.runs[id].pc.checked) in Do(c, s, a).adrift
  {
  }

  // ---------------------------------------------------------------- the order of a run's steps

  /** Where a run may be after a step, from where it was. */
  predicate Follows(before: Pc, after: Pc) {
    before == after || after == Finished(true) || (after == Releasing(true) && Inside(before)) ||
    match before
    case Preparing => after.Looking?
    case Looking => after.Refreshing? || after == Releasing(false)
    case Refreshing => after.Publishing? || after.Marking?
    case Publishing(_) => after.Landed?
    case Landed(_) => after.Refreshing?
    case Marking(_) => after.Marked?
    case Marked(ok) => after == Releasing(!ok)
    case Releasing(retry) => after == Finished(retry)
    case Finished(_) => false
  }

  /** A step moves a run on in the order of the program, or not at all, and leaves other runs where they are. */
  lemma StepsFollow(c: Config, s: State, a: Action, id: nat)
    requires Enabled(c, s, a) && id in s.runs
    ensures id in Do(c, s, a).runs && Follows(s.runs[id].pc, Do(c, s, a).runs[id].pc)
    ensures s.runs[id].pc.Finished? ==> Do(c, s, a).runs[id] == s.runs[id]
  {
  }

  /** A run that stops waiting for a write before it landed sets it adrift, whatever the step. */
  lemma UnansweredIsAdrift(c: Config, s: State, a: Action, id: nat)
    requires Enabled(c, s, a) && id in s.runs && (s.runs[id].pc.Publishing? || s.runs[id].pc.Marking?)
    requires Do(c, s, a).runs[id].pc != s.runs[id].pc && !(a.Land? && a.id == id)
    ensures Stray(id, s.runs[id].job, Target(s.runs[id]), s.runs[id].pc.checked) in Do(c, s, a).adrift
  {
  }

  /** A run has at most one result for each of the two families, and sends the marker after both. */
  ghost predicate ResultsOk(s: State) {
    forall id :: id in s.runs ==>
      && |s.runs[id].results| <= 2
      && (s.runs[id].pc.Publishing? || s.runs[id].pc.Landed? ==> |s.runs[id].results| < 2)
      && (s.runs[id].pc.Marking? || s.runs[id].pc.Marked? ==> s.runs[id].results == [true, true])
  }

  lemma ResultsStep(c: Config, s: State, a: Action)
    requires ResultsOk(s) && Enabled(c, s, a)
    ensures ResultsOk(Do(c, s, a))
  {
    var t := Do(c, s, a);
    forall id | id in t.runs
      ensures |t.runs[id].results| <= 2
      ensures t.runs[id].pc.Publishing? || t.runs[id].pc.Landed? ==> |t.runs[id].results| < 2
      ensures t.runs[id].pc.Marking? || t.runs[id].pc.Marked? ==> t.runs[id].results == [true, true]
    {
    }
  }

  lemma {:induction false} ResultsKept(c: Config, s: State, actions: seq<Action>)
    requires ResultsOk(s) && Possible(c, s, actions)
    ensures ResultsOk(Final(c, s, actions))
    decreases |actions|
  {
    if actions != [] {
      ResultsStep(c, s, actions[0]);
      ResultsKept(c, Do(c, s, actions[0]), actions[1..]);
    }
  }

  /** Along every run of the system each family is refreshed at most once, and the marker follows both. */
  lemma ResultsAlways(c: Config, now: int, actions: seq<Action>)
    requires Possible(c, Initial(now), actions)
    ensures ResultsOk(Final(c, Initial(now), actions))
  {
    ResultsKept(c, Initial(now), actions);
  }
}
