/** The scenario runner: captures, workloads, expectations, and the one-shot guard that tears the environment down. */
module Runner {
  import opened Wrappers

  type TaskId = nat

  /** How a joined workload task ended. `Crashed` is a join error other than cancellation. */
  datatype JoinResult = Finished | FailedWith(error: nat) | Cancelled | Crashed

  datatype Join = Join(task: TaskId, result: JoinResult)

  /** How one asynchronous call of an expectation ends. `Interrupted`: it panics, or the caller drops the whole run
      while it is pending; the run then unwinds without returning. */
  datatype CallEnd = Succeeds | Fails | Interrupted

  datatype Expectation = Expectation(capture: CallEnd, evaluate: CallEnd)

  datatype Event =
    | Captured(index: nat, end: CallEnd)
    | Joined(join: Join)
    | Evaluated(index: nat, end: CallEnd)
    | CleanedUp

  datatype ScenarioError =
    | CaptureFailed(index: nat)
    | WorkloadFailed(join: Join)
    | ExpectationsFailed(failing: seq<nat>)

  /** How a phase ended: normally, with an error, or by unwinding. */
  datatype PhaseEnd = Completed | Erred(error: ScenarioError) | Unwound

  // ----- workload tasks -----

  predicate Passes(r: JoinResult) {
    r.Finished? || r.Cancelled?
  }

  function MapJoinResult(join: Join): Outcome<ScenarioError> {
    if Passes(join.result) then Pass else Fail(WorkloadFailed(join))
  }

  ghost predicate EachTaskOnce(joins: seq<Join>) {
    forall i, j :: 0 <= i < j < |joins| ==> joins[i].task != joins[j].task
  }

  ghost predicate AllPass(joins: seq<Join>) {
    forall j <- joins :: Passes(j.result)
  }

  ghost function TasksOf(joins: seq<Join>): set<TaskId> {
    set j | j in joins :: j.task
  }

  function Spawned(n: nat): set<TaskId> {
    if n == 0 then {} else Spawned(n - 1) + {n - 1}
  }

  /** What the joins so far say about the way the phase ended: no task is joined twice, an error is reported exactly
      for the first failing join, and normal completion means nothing failed. */
  ghost predicate JoinsExplain(joins: seq<Join>, end: PhaseEnd) {
    && EachTaskOnce(joins)
    && match end
       case Completed => AllPass(joins)
       case Unwound => AllPass(joins)
       case Erred(e) =>
         && joins != [] && AllPass(joins[..|joins| - 1])
         && !Passes(joins[|joins| - 1].result) && e == WorkloadFailed(joins[|joins| - 1])
  }

  function Joins(joins: seq<Join>): seq<Event> {
    seq(|joins|, i requires 0 <= i < |joins| => Joined(joins[i]))
  }

  class Journal {
    var events: seq<Event>
    var timers: seq<nat>  // durations waited for or bounding a wait, as armed

    constructor ()
      ensures events == [] && timers == []
    {
      events, timers := [], [];
    }

    method Record(e: Event)
      modifies this`events
      ensures events == old(events) + [e]
    {
      events := events + [e];
    }
  }

  /** What a finished workload phase guarantees: completing takes every spawned task joined exactly once. */
  ghost predicate WorkloadsExplain(joins: seq<Join>, end: PhaseEnd, workloads: nat) {
    && JoinsExplain(joins, end) && TasksOf(joins) <= Spawned(workloads)
    && (end.Completed? ==> TasksOf(joins) == Spawned(workloads) && |joins| == workloads)
  }

  /** The waits of a completed workload phase: the run, then a cooldown that is present and not zero. An empty run is
      waited for only if it takes time. */
  function Waits(workloads: nat, duration: nat, cooldown: Option<nat>): seq<nat> {
    (if workloads > 0 || duration != 0 then [duration] else [])
    + (if cooldown.Some? && cooldown.value != 0 then [cooldown.value] else [])
  }

  /** A plain wait, during which the caller may drop the run. */
  method Pause(journal: Journal, duration: nat) returns (end: PhaseEnd)
    modifies journal`timers
    ensures end.Completed? || end.Unwound?
    ensures journal.timers == old(journal.timers) + [duration]
  {
    journal.timers := journal.timers + [duration];
    var dropped: bool := *;
    end := if dropped then Unwound else Completed;
  }

  class JoinSet {
    const journal: Journal
    var running: set<TaskId>
    ghost var joins: seq<Join>
    ghost const spawned: set<TaskId>

    /** Every spawned task is either still running or was joined, once. */
    ghost predicate Valid()
      reads this
    {
      && EachTaskOnce(joins)
      && running !! TasksOf(joins) && running + TasksOf(joins) == spawned
    }

    constructor (journal: Journal, n: nat)
      ensures Valid() && running == spawned == Spawned(n) && joins == [] && this.journal == journal
    {
      this.journal := journal;
      running := Spawned(n);
      joins := [];
      spawned := Spawned(n);
    }

    /** Some running task ends, in any way. */
    method JoinNext() returns (join: Join)
      requires Valid() && running != {}
      modifies this, journal`events
      ensures Valid() && join.task in old(running) && running == old(running) - {join.task}
      ensures joins == old(joins) + [join] && journal.events == old(journal.events) + [Joined(join)]
    {
      var task :| task in running;
      var result: JoinResult := *;
      join := Join(task, result);
      running := running - {task};
      joins := joins + [join];
      journal.Record(Joined(join));
      TasksSnoc(old(joins), join);
    }

    ghost predicate Recorded(before: seq<Event>)
      reads this, journal
    {
      journal.events == before + Joins(joins)
    }

    /** Joins tasks until the timer fires, one reports an error, or none is left. The timer and the caller may cut in
        at any await point. */
    method DriveUntilTimer(ghost before: seq<Event>, duration: nat) returns (end: PhaseEnd, timedOut: bool)
      requires Valid() && AllPass(joins) && Recorded(before)
      modifies this, journal
      ensures Valid() && JoinsExplain(joins, end) && Recorded(before)
      ensures journal.timers == old(journal.timers) + [duration]
      ensures end.Completed? && !timedOut ==> running == {}
    {
      journal.timers := journal.timers + [duration];
      while running != {}
        invariant Valid() && AllPass(joins) && Recorded(before)
        invariant journal.timers == old(journal.timers) + [duration]
        decreases running
      {
        var timerFires: bool := *;
        if timerFires {
          return Completed, true;
        }
        var dropped: bool := *;
        if dropped {
          return Unwound, false;
        }
        ghost var earlier := joins;
        var join := JoinNext();
        JoinsSnoc(earlier, join);
        var outcome := MapJoinResult(join);
        if outcome.Fail? {
          return Erred(outcome.error), false;
        }
      }
      return Completed, false;
    }

    /** Aborts what is left and joins all of it, unless a task still reports an error. */
    method DrainWorkloads(ghost before: seq<Event>) returns (end: PhaseEnd)
      requires Valid() && AllPass(joins) && Recorded(before)
      modifies this, journal`events
      ensures Valid() && JoinsExplain(joins, end) && Recorded(before)
      ensures end.Completed? ==> running == {}
    {
      while running != {}
        invariant Valid() && AllPass(joins) && Recorded(before)
        decreases running
      {
        var dropped: bool := *;
        if dropped {
          return Unwound;
        }
        ghost var earlier := joins;
        var join := JoinNext();
        JoinsSnoc(earlier, join);
        var outcome := MapJoinResult(join);
        if outcome.Fail? {
          return Erred(outcome.error);
        }
      }
      return Completed;
    }

    /** The run phase, the cooldown (none when its duration is absent or zero), then the drain. */
    method DriveAndDrain(ghost before: seq<Event>, duration: nat, cooldown: Option<nat>) returns (end: PhaseEnd)
      requires Valid() && AllPass(joins) && Recorded(before)
      modifies this, journal
      ensures Valid() && JoinsExplain(joins, end) && Recorded(before)
      ensures end.Completed? ==> journal.timers == old(journal.timers) + Waits(1, duration, cooldown)
      ensures end.Completed? ==> running == {}
    {
      var timedOut;
      end, timedOut := DriveUntilTimer(before, duration);
      if !end.Completed? {
        return;
      }
      if cooldown.Some? && cooldown.value != 0 {
        if running == {} {
          end := Pause(journal, cooldown.value);
        } else {
          end, timedOut := DriveUntilTimer(before, cooldown.value);
        }
        if !end.Completed? {
          return;
        }
      }
      end := DrainWorkloads(before);
    }
  }

  method WaitWithoutWorkloads(journal: Journal, duration: nat, cooldown: Option<nat>) returns (end: PhaseEnd)
    modifies journal`timers
    ensures end.Completed? || end.Unwound?
    ensures end.Completed? ==> journal.timers == old(journal.timers) + Waits(0, duration, cooldown)
  {
    end := Completed;
    if duration != 0 {
      end := Pause(journal, duration);
    }
    if end.Completed? && cooldown.Some? && cooldown.value != 0 {
      end := Pause(journal, cooldown.value);
    }
  }

  /** Runs `workloads` tasks. No outcome is lost: it completes only if every spawned task was joined exactly once and
      none failed, and it errs exactly when the last join is a failure. It completes only after the run and the cooldown
      have been waited for, in this order. */
  method RunWorkloads(journal: Journal, workloads: nat, duration: nat, cooldown: Option<nat>)
    returns (end: PhaseEnd, ghost joins: seq<Join>)
    modifies journal
    ensures WorkloadsExplain(joins, end, workloads)
    ensures journal.events == old(journal.events) + Joins(joins)
    ensures end.Completed? ==> journal.timers == old(journal.timers) + Waits(workloads, duration, cooldown)
  {
    if workloads == 0 {
      JoinCount([], 0);
      end := WaitWithoutWorkloads(journal, duration, cooldown);
      return end, [];
    }
    ghost var before := journal.events;
    var tasks := new JoinSet(journal, workloads);
    assert Joins([]) == [] && before + [] == before;
    end := tasks.DriveAndDrain(before, duration, cooldown);
    joins := tasks.joins;
    EverythingJoined(joins, end, tasks.running, workloads);
  }

  lemma EverythingJoined(joins: seq<Join>, end: PhaseEnd, running: set<TaskId>, workloads: nat)
    requires JoinsExplain(joins, end) && running + TasksOf(joins) == Spawned(workloads)
    requires end.Completed? ==> running == {}
    ensures WorkloadsExplain(joins, end, workloads)
  {
    JoinCount(joins, workloads);
    assert TasksOf(joins) <= Spawned(workloads);
  }

  lemma TasksSnoc(joins: seq<Join>, join: Join)
    ensures TasksOf(joins + [join]) == TasksOf(joins) + {join.task}
    ensures EachTaskOnce(joins) && join.task !in TasksOf(joins) ==> EachTaskOnce(joins + [join])
  {
    assert forall j <- joins + [join] :: j in joins || j == join;
    assert forall j <- joins :: j in joins + [join];
    assert join in joins + [join];
    assert forall i :: 0 <= i < |joins| ==> joins[i] in joins;
  }

  lemma JoinsSnoc(joins: seq<Join>, join: Join)
    ensures Joins(joins + [join]) == Joins(joins) + [Joined(join)]
    ensures (joins + [join])[..|joins + [join]| - 1] == joins
  {
  }

  /** The workload phase errs exactly when some joined task failed or crashed. */
  lemma WorkloadsErrIff(joins: seq<Join>, end: PhaseEnd, workloads: nat)
    requires WorkloadsExplain(joins, end, workloads)
    ensures end.Erred? <==> exists j <- joins :: j.result.FailedWith? || j.result.Crashed?
  {
    if end.Erred? {
      assert joins[|joins| - 1] in joins;
    }
  }

  lemma {:induction false} JoinCount(joins: seq<Join>, n: nat)
    requires EachTaskOnce(joins)
    ensures |TasksOf(joins)| == |joins| && |Spawned(n)| == n
    decreases |joins|, n
  {
    if joins != [] {
      var init, last := joins[..|joins| - 1], joins[|joins| - 1];
      JoinCount(init, n);
      assert joins == init + [last];
      TasksSnoc(init, last);
      assert forall j <- init :: j.task != last.task;
    } else if n > 0 {
      JoinCount(joins, n - 1);
      SpawnedBelow(n - 1);
    }
  }

  lemma {:induction false} SpawnedBelow(n: nat)
    ensures forall t <- Spawned(n) :: t < n
  {
    if n > 0 {
      SpawnedBelow(n - 1);
    }
  }

  // ----- what a run records -----

  function Captures(expectations: seq<Expectation>): seq<Event> {
    seq(|expectations|, i requires 0 <= i < |expectations| => Captured(i, expectations[i].capture))
  }

  function Evaluations(expectations: seq<Expectation>): seq<Event> {
    seq(|expectations|, i requires 0 <= i < |expectations| => Evaluated(i, expectations[i].evaluate))
  }

  /** Length of the longest prefix of captures that succeed. */
  function GoodCaptures(expectations: seq<Expectation>): (n: nat)
    ensures n <= |expectations|
    ensures forall i :: 0 <= i < n ==> expectations[i].capture.Succeeds?
    ensures n < |expectations| ==> !expectations[n].capture.Succeeds?
  {
    if expectations == [] || !expectations[0].capture.Succeeds? then 0 else 1 + GoodCaptures(expectations[1..])
  }

  /** Length of the longest prefix of evaluations that return. */
  function ReturningEvaluations(expectations: seq<Expectation>): (n: nat)
    ensures n <= |expectations|
    ensures forall i :: 0 <= i < n ==> !expectations[i].evaluate.Interrupted?
    ensures n < |expectations| ==> expectations[n].evaluate.Interrupted?
  {
    if expectations == [] || expectations[0].evaluate.Interrupted? then 0
    else 1 + ReturningEvaluations(expectations[1..])
  }

  /** Indexes of the failing evaluations, in order. */
  function Failing(expectations: seq<Expectation>): seq<nat> {
    if expectations == [] then []
    else
      Failing(expectations[..|expectations| - 1]) +
      if expectations[|expectations| - 1].evaluate.Fails? then [|expectations| - 1] else []
  }

  lemma {:induction false} FailingIsComplete(expectations: seq<Expectation>, i: nat)
    ensures i in Failing(expectations) <==> i < |expectations| && expectations[i].evaluate.Fails?
  {
    if expectations != [] {
      FailingIsComplete(expectations[..|expectations| - 1], i);
    }
  }

  datatype RunEnd = RunEnd(events: seq<Event>, end: PhaseEnd)

  /** The captures, up to the first that does not succeed. */
  function CapturePhase(expectations: seq<Expectation>): RunEnd {
    var n := GoodCaptures(expectations);
    if n == |expectations| then RunEnd(Captures(expectations), Completed)
    else
      RunEnd(Captures(expectations)[..n + 1],
             if expectations[n].capture.Fails? then Erred(CaptureFailed(n)) else Unwound)
  }

  /** The evaluations: all of them, unless one does not return. */
  function EvaluationPhase(expectations: seq<Expectation>): RunEnd {
    var n := ReturningEvaluations(expectations);
    if n < |expectations| then RunEnd(Evaluations(expectations)[..n + 1], Unwound)
    else
      RunEnd(Evaluations(expectations),
             if Failing(expectations) == [] then Completed else Erred(ExpectationsFailed(Failing(expectations))))
  }

  /** The three phases of a run, up to the first error or unwinding, before anything is torn down. */
  function PhasesOf(expectations: seq<Expectation>, joins: seq<Join>, workloads: PhaseEnd): RunEnd {
    var captures, evaluations := CapturePhase(expectations), EvaluationPhase(expectations);
    if !captures.end.Completed? then captures
    else if !workloads.Completed? then RunEnd(captures.events + Joins(joins), workloads)
    else RunEnd(captures.events + Joins(joins) + evaluations.events, evaluations.end)
  }

  /** What tearing down leaves in the journal: a runner may have been built without a guard. */
  function Teardown(guarded: bool): seq<Event> {
    if guarded then [CleanedUp] else []
  }

  function Settling(settle: Option<nat>): seq<nat> {
    match settle case None => [] case Some(wait) => [wait]
  }

  lemma Regroup<T>(a: seq<T>, b: seq<T>, c: seq<T>, d: seq<T>)
    ensures a + b + c + d == a + (b + c + d)
  {
  }

  // ----- the runner -----

  class CleanupGuard {
    const journal: Journal

    constructor (journal: Journal)
      ensures this.journal == journal
    {
      this.journal := journal;
    }

    method Cleanup()
      modifies journal
      ensures journal.events == old(journal.events) + [CleanedUp]
    {
      journal.Record(CleanedUp);
    }
  }

  class RunHandle {
    var guard: CleanupGuard?

    constructor (guard: CleanupGuard?)
      ensures this.guard == guard
    {
      this.guard := guard;
    }

    /** Runs when the handle goes out of scope. */
    method Drop()
      modifies this, if guard == null then {} else {guard.journal}
      ensures guard == null
      ensures old(guard) != null ==>
                old(guard).journal.events == old(guard.journal.events) + [CleanedUp]
    {
      if guard != null {
        var taken := guard;
        guard := null;
        taken.Cleanup();
      }
    }
  }

  class ScenarioRunner {
    const journal: Journal
    var guard: CleanupGuard?

    ghost predicate Valid()
      reads this
    {
      guard != null ==> guard.journal == journal
    }

    constructor (journal: Journal, guard: CleanupGuard?)
      requires guard != null ==> guard.journal == journal
      ensures Valid() && this.journal == journal && this.guard == guard
    {
      this.journal := journal;
      this.guard := guard;
    }

    method Cleanup()
      requires Valid()
      modifies this, journal
      ensures Valid() && guard == null
      ensures journal.events == old(journal.events) + Teardown(old(guard) != null)
    {
      if guard != null {
        var taken := guard;
        guard := null;
        taken.Cleanup();
      }
    }

    /** Runs when the runner goes out of scope, whether or not it was ever run. */
    method Drop()
      requires Valid()
      modifies this, journal
      ensures Valid() && guard == null
      ensures journal.events == old(journal.events) + Teardown(old(guard) != null)
    {
      Cleanup();
    }

    /** An error path: clean up explicitly, then go out of scope. */
    method Abandon()
      requires Valid()
      modifies this, journal
      ensures Valid() && guard == null
      ensures journal.events == old(journal.events) + Teardown(old(guard) != null)
    {
      Cleanup();
      Drop();
    }

    method IntoRunHandle() returns (handle: RunHandle)
      requires Valid()
      modifies this, journal
      ensures Valid() && guard == null && fresh(handle) && handle.guard == old(guard)
      ensures journal.events == old(journal.events)
    {
      handle := new RunHandle(guard);
      guard := null;
      Drop();
    }

    method PrepareExpectations(expectations: seq<Expectation>) returns (end: PhaseEnd)
      modifies journal`events
      ensures end == CapturePhase(expectations).end
      ensures journal.events == old(journal.events) + CapturePhase(expectations).events
    {
      for i := 0 to |expectations|
        invariant i <= GoodCaptures(expectations)
        invariant journal.events == old(journal.events) + Captures(expectations)[..i]
      {
        journal.Record(Captured(i, expectations[i].capture));
        assert Captures(expectations)[..i + 1] == Captures(expectations)[..i] + [Captured(i, expectations[i].capture)];
        match expectations[i].capture {
          case Succeeds =>
          case Fails => return Erred(CaptureFailed(i));
          case Interrupted => return Unwound;
        }
      }
      return Completed;
    }

    /** Evaluates every expectation even when some fail, and reports all failures together. */
    method RunExpectations(expectations: seq<Expectation>) returns (end: PhaseEnd)
      modifies journal`events
      ensures end == EvaluationPhase(expectations).end
      ensures journal.events == old(journal.events) + EvaluationPhase(expectations).events
    {
      var failures := [];
      for i := 0 to |expectations|
        invariant i <= ReturningEvaluations(expectations)
        invariant failures == Failing(expectations[..i])
        invariant journal.events == old(journal.events) + Evaluations(expectations)[..i]
      {
        journal.Record(Evaluated(i, expectations[i].evaluate));
        assert expectations[..i + 1][..i] == expectations[..i];
        match expectations[i].evaluate {
          case Succeeds =>
          case Fails => failures := failures + [i];
          case Interrupted => return Unwound;
        }
      }
      assert expectations[..|expectations|] == expectations;
      return if failures == [] then Completed else Erred(ExpectationsFailed(failures));
    }

    /** The three phases; the first one that does not complete ends the run. `joins` and `joined` tell what the
        workload tasks did. */
    method RunPhases(
        expectations: seq<Expectation>, workloads: nat, duration: nat, cooldown: Option<nat>, settle: Option<nat>)
      returns (end: PhaseEnd, ghost joins: seq<Join>, ghost joined: PhaseEnd)
      modifies journal
      ensures CapturePhase(expectations).end.Completed? && joined.Completed? ==>
                journal.timers == old(journal.timers) + Waits(workloads, duration, cooldown) + Settling(settle)
      ensures CapturePhase(expectations).end.Completed? ==> WorkloadsExplain(joins, joined, workloads)
      ensures end == PhasesOf(expectations, joins, joined).end
      ensures journal.events == old(journal.events) + PhasesOf(expectations, joins, joined).events
    {
      joins, joined := [], Completed;
      end := PrepareExpectations(expectations);
      if !end.Completed? {
        return;
      }
      end, joins := RunWorkloads(journal, workloads, duration, cooldown);
      if end.Completed? && settle.Some? {
        end := Pause(journal, settle.value);  // lets the block feed settle
      }
      joined := end;
      if !end.Completed? {
        return;
      }
      end := RunExpectations(expectations);
      Regroup(
        old(journal.events), CapturePhase(expectations).events, Joins(joins), EvaluationPhase(expectations).events);
    }

    /** Consumes the runner. On success the guard moves, unfired, into the handle; on every other path it has fired by
        the time the runner is gone. */
    method Run(
        expectations: seq<Expectation>, workloads: nat, duration: nat, cooldown: Option<nat>, settle: Option<nat>)
      returns (end: PhaseEnd, handle: RunHandle?, ghost joins: seq<Join>, ghost joined: PhaseEnd)
      requires Valid()
      modifies this, journal
      ensures CapturePhase(expectations).end.Completed? ==> WorkloadsExplain(joins, joined, workloads)
      ensures guard == null && end == PhasesOf(expectations, joins, joined).end
      ensures journal.events == old(journal.events) + PhasesOf(expectations, joins, joined).events
                                + Teardown(old(guard) != null && !end.Completed?)
      ensures handle != null <==> end.Completed?
      ensures handle != null ==> fresh(handle) && handle.guard == old(guard)
    {
      handle := null;
      end, joins, joined := RunPhases(expectations, workloads, duration, cooldown, settle);
      if !end.Completed? {
        Abandon();
        return;
      }
      handle := IntoRunHandle();
    }
  }

  /** All events of a runner's life, up to the point where nothing of it is left. */
  function LifeOf(
      guarded: bool, runs: bool, expectations: seq<Expectation>, joins: seq<Join>, joined: PhaseEnd): seq<Event>
  {
    (if runs then PhasesOf(expectations, joins, joined).events else []) + Teardown(guarded)
  }

  /** A whole life: a runner is built, perhaps run, and everything it leaves behind is dropped. */
  method Life(
      guarded: bool, runs: bool, expectations: seq<Expectation>,
      workloads: nat, duration: nat, cooldown: Option<nat>, settle: Option<nat>)
    returns (events: seq<Event>, ghost joins: seq<Join>, ghost joined: PhaseEnd)
    ensures runs && CapturePhase(expectations).end.Completed? ==> WorkloadsExplain(joins, joined, workloads)
    ensures events == LifeOf(guarded, runs, expectations, joins, joined)
  {
    var journal := new Journal();
    var guard: CleanupGuard? := null;
    if guarded {
      guard := new CleanupGuard(journal);
    }
    var runner := new ScenarioRunner(journal, guard);
    if !runs {
      runner.Drop();
      return journal.events, [], Completed;
    }
    assert journal.events == [];
    var end, handle;
    end, handle, joins, joined := runner.Run(expectations, workloads, duration, cooldown, settle);
    ghost var phases := PhasesOf(expectations, joins, joined);
    assert journal.events == phases.events + Teardown(guarded && !phases.end.Completed?);
    if handle != null {
      handle.Drop();
      assert journal.events == phases.events + Teardown(guarded);
    }
    events := journal.events;
  }

  // ----- what every life guarantees -----

  function Cleanups(events: seq<Event>): nat {
    if events == [] then 0 else Cleanups(events[..|events| - 1]) + if events[|events| - 1].CleanedUp? then 1 else 0
  }

  lemma {:induction false} NoCleanups(events: seq<Event>)
    requires forall e <- events :: !e.CleanedUp?
    ensures Cleanups(events) == 0
  {
    if events != [] {
      NoCleanups(events[..|events| - 1]);
    }
  }

  /** Whatever fails, panics or is dropped on the way, the guard fires exactly once, as the very last event; a runner
      without a guard never cleans up. */
  lemma CleanupExactlyOnce(
      guarded: bool, runs: bool, expectations: seq<Expectation>, joins: seq<Join>, joined: PhaseEnd)
    ensures var life := LifeOf(guarded, runs, expectations, joins, joined);
            if guarded then life != [] && life[|life| - 1] == CleanedUp && Cleanups(life) == 1 else Cleanups(life) == 0
  {
    var phases := if runs then PhasesOf(expectations, joins, joined).events else [];
    NoCleanups(phases);
    assert phases + [] == phases && (phases + [CleanedUp])[..|phases|] == phases;
  }

  /** Expectations are evaluated only after every capture succeeded and the workloads completed. */
  lemma EvaluatedOnlyAfterWorkloads(
      guarded: bool, expectations: seq<Expectation>, joins: seq<Join>, joined: PhaseEnd, i: nat, end: CallEnd)
    requires Evaluated(i, end) in LifeOf(guarded, true, expectations, joins, joined)
    ensures joined.Completed? && forall e <- expectations :: e.capture.Succeeds?
    ensures i < |expectations| && end == expectations[i].evaluate
  {
    if GoodCaptures(expectations) == |expectations| && joined.Completed? {
      assert Evaluated(i, end) in Evaluations(expectations);
    }
  }

  /** A run succeeds exactly when all captures succeed, the workloads complete and all expectations hold; the guard is
      then still unfired and every expectation has been evaluated. */
  lemma SuccessIff(expectations: seq<Expectation>, joins: seq<Join>, joined: PhaseEnd)
    ensures var run := PhasesOf(expectations, joins, joined);
            && (run.end.Completed? <==>
                && joined.Completed?
                && forall e <- expectations :: e.capture.Succeeds? && e.evaluate.Succeeds?)
            && (run.end.Completed? ==>
                && Cleanups(run.events) == 0
                && forall i :: 0 <= i < |expectations| ==> Evaluated(i, Succeeds) in run.events)
  {
    var run := PhasesOf(expectations, joins, joined);
    if Failing(expectations) != [] {
      FailingIsComplete(expectations, Failing(expectations)[0]);
    }
    forall i | 0 <= i < |expectations|
      ensures expectations[i].evaluate.Fails? ==> Failing(expectations) != []
    {
      FailingIsComplete(expectations, i);
    }
    if run.end.Completed? {
      NoCleanups(run.events);
      forall i | 0 <= i < |expectations|
        ensures Evaluated(i, Succeeds) in run.events
      {
        assert Evaluations(expectations)[i] == Evaluated(i, expectations[i].evaluate);
        assert Evaluated(i, expectations[i].evaluate) in Evaluations(expectations);
      }
    }
  }

  /** Which error a run ends with: that of the first capture that does not succeed, if it fails; else that of the last
      joined task, the only one that failed. */
  lemma ErrorIsFirst(expectations: seq<Expectation>, joins: seq<Join>, joined: PhaseEnd, n: nat, join: Join)
    requires CapturePhase(expectations).end.Completed? ==> JoinsExplain(joins, joined)
    ensures PhasesOf(expectations, joins, joined).end == Erred(CaptureFailed(n)) <==>
            && n < |expectations| && expectations[n].capture.Fails?
            && forall i :: 0 <= i < n ==> expectations[i].capture.Succeeds?
    ensures PhasesOf(expectations, joins, joined).end == Erred(WorkloadFailed(join)) <==>
            && (forall e <- expectations :: e.capture.Succeeds?)
            && joined.Erred? && joins[|joins| - 1] == join && (join.result.FailedWith? || join.result.Crashed?)
  {
    var good := GoodCaptures(expectations);
    if good == |expectations| {
      assert forall e <- expectations :: e.capture.Succeeds?;
    } else {
      assert expectations[good] in expectations;
    }
  }

  /** The events of a run: captures up to the first that does not succeed; joins if all succeed; evaluations up to the
      first that does not return, if the workloads completed as well. */
  lemma EventsAre(expectations: seq<Expectation>, joins: seq<Join>, joined: PhaseEnd, i: nat, end: CallEnd, join: Join)
    ensures var events := PhasesOf(expectations, joins, joined).events;
            var captured := forall e <- expectations :: e.capture.Succeeds?;
            && (Captured(i, end) in events <==>
                && i < |expectations| && end == expectations[i].capture
                && forall k :: 0 <= k < i ==> expectations[k].capture.Succeeds?)
            && (Joined(join) in events <==> captured && join in joins)
            && (Evaluated(i, end) in events <==>
                && captured && joined.Completed? && i < |expectations| && end == expectations[i].evaluate
                && forall k :: 0 <= k < i ==> !expectations[k].evaluate.Interrupted?)
  {
    CaptureEvents(expectations, i, end);
    EvaluationEvents(expectations, i, end);
    JoinEvents(joins, join);
    var good := GoodCaptures(expectations);
    assert good < |expectations| ==> expectations[good] in expectations;
    assert forall e <- CapturePhase(expectations).events :: e.Captured?;
    assert forall e <- EvaluationPhase(expectations).events :: e.Evaluated?;
    assert forall e <- Joins(joins) :: e.Joined?;
  }

  lemma CaptureEvents(expectations: seq<Expectation>, i: nat, end: CallEnd)
    ensures Captured(i, end) in CapturePhase(expectations).events <==>
            && i < |expectations| && end == expectations[i].capture
            && forall k :: 0 <= k < i ==> expectations[k].capture.Succeeds?
  {
    var events, good := CapturePhase(expectations).events, GoodCaptures(expectations);
    assert forall k :: 0 <= k < |events| ==> events[k] == Captured(k, expectations[k].capture);
    if i < |events| {
      assert events[i] in events;
    }
  }

  lemma EvaluationEvents(expectations: seq<Expectation>, i: nat, end: CallEnd)
    ensures Evaluated(i, end) in EvaluationPhase(expectations).events <==>
            && i < |expectations| && end == expectations[i].evaluate
            && forall k :: 0 <= k < i ==> !expectations[k].evaluate.Interrupted?
  {
    var events := EvaluationPhase(expectations).events;
    assert forall k :: 0 <= k < |events| ==> events[k] == Evaluated(k, expectations[k].evaluate);
    if i < |events| {
      assert events[i] in events;
    }
  }

  lemma JoinEvents(joins: seq<Join>, join: Join)
    ensures Joined(join) in Joins(joins) <==> join in joins
  {
    if join in joins {
      var k :| 0 <= k < |joins| && joins[k] == join;
      assert Joins(joins)[k] == Joined(join);
    }
  }

  /** When an event may come, relative to others: captures, in order; joins; evaluations, in order; the cleanup. */
  ghost predicate Before(a: Event, b: Event) {
    match (a, b)
    case (Captured(i, _), Captured(k, _)) => i < k
    case (Captured(_, _), _) => true
    case (Joined(_), Captured(_, _)) => false
    case (Joined(_), _) => true
    case (Evaluated(i, _), Evaluated(k, _)) => i < k
    case (Evaluated(_, _), CleanedUp) => true
    case _ => false
  }

  /** The events of a life come in the order of its phases, and within captures and evaluations in the order of the
      expectations. */
  lemma EventsInOrder(
      guarded: bool, runs: bool, expectations: seq<Expectation>, joins: seq<Join>, joined: PhaseEnd, i: nat, k: nat)
    requires i < k < |LifeOf(guarded, runs, expectations, joins, joined)|
    ensures var life := LifeOf(guarded, runs, expectations, joins, joined); Before(life[i], life[k])
  {
    var phases := if runs then PhasesOf(expectations, joins, joined).events else [];
    if k < |phases| {
      PhasesInOrder(expectations, joins, joined, i, k);
    }
  }

  lemma PhasesInOrder(expectations: seq<Expectation>, joins: seq<Join>, joined: PhaseEnd, i: nat, k: nat)
    requires i < k < |PhasesOf(expectations, joins, joined).events|
    ensures var events := PhasesOf(expectations, joins, joined).events;
            Before(events[i], events[k]) && !events[i].CleanedUp?
  {
    var captures, evaluations := CapturePhase(expectations).events, EvaluationPhase(expectations).events;
    assert forall n :: 0 <= n < |captures| ==> captures[n] == Captured(n, expectations[n].capture);
    assert forall n :: 0 <= n < |evaluations| ==> evaluations[n] == Evaluated(n, expectations[n].evaluate);
  }

  /** When expectations fail, the report names all of the failing ones and no other. */
  lemma ReportIsComplete(expectations: seq<Expectation>, joins: seq<Join>, joined: PhaseEnd, i: nat)
    requires var end := PhasesOf(expectations, joins, joined).end; end.Erred? && end.error.ExpectationsFailed?
    requires JoinsExplain(joins, joined)
    ensures i in PhasesOf(expectations, joins, joined).end.error.failing <==>
            i < |expectations| && expectations[i].evaluate.Fails?
  {
    FailingIsComplete(expectations, i);
  }
}
