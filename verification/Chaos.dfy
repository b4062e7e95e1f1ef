/** The chaos workload: it restarts one random node after another, with a delay between attempts and a cooldown per
    node. Time is in nanoseconds on a clock that never runs backwards. */
module Chaos {
  import opened Wrappers

  type Instant = nat
  type Duration = nat

  class Clock {
    var now: Instant

    constructor (start: Instant)
      ensures now == start
    {
      now := start;
    }

    /** Any amount of time may have passed since the last reading. */
    method Now() returns (t: Instant)
      modifies this
      ensures old(now) <= now == t
    {
      var passed :| passed >= 0;
      now := now + passed;
      t := now;
    }

    /** Sleeps at least as long as asked. */
    method Sleep(d: Duration)
      modifies this
      ensures now >= old(now) + d
    {
      var overshoot :| overshoot >= 0;
      now := now + d + overshoot;
    }
  }

  type Target = nat  // node index

  /** What restarting a node does: how long it takes and whether it succeeds. */
  datatype RestartOutcome = RestartOutcome(takes: Duration, succeeds: bool)

  datatype Restart = Restart(target: Target, started: Instant, completed: Instant, succeeded: bool)

  datatype ChaosError = NoNodeControl | NoEligibleTargets | RestartFailed(target: Target)

  function Max(a: nat, b: nat): nat {
    if a >= b then a else b
  }

  /** Nodes still cooling down. */
  function Cooling(cooldowns: map<Target, Instant>, now: Instant): set<Target> {
    set t | t in cooldowns && cooldowns[t] > now
  }

  method EarliestReady(cooldowns: map<Target, Instant>, cooling: set<Target>) returns (first: Target)
    requires cooling != {} && cooling <= cooldowns.Keys
    ensures first in cooling && forall t <- cooling :: cooldowns[first] <= cooldowns[t]
  {
    first :| first in cooling;
    var rest := cooling - {first};
    while rest != {}
      invariant rest <= cooling && first in cooling
      invariant forall t <- cooling :: t !in rest ==> cooldowns[first] <= cooldowns[t]
      decreases rest
    {
      var t :| t in rest;
      if cooldowns[t] < cooldowns[first] {
        first := t;
      }
      rest := rest - {t};
    }
  }

  datatype RandomRestartWorkload = RandomRestartWorkload(
    minDelay: Duration, maxDelay: Duration, targetCooldown: Duration, includeNodes: bool)
  {
    method Targets(nodeCount: nat) returns (targets: seq<Target>)
      ensures targets == if includeNodes && nodeCount > 1 then seq(nodeCount, i => i) else []
    {
      targets := [];
      if includeNodes && nodeCount > 1 {
        for index := 0 to nodeCount
          invariant targets == seq(index, i => i)
        {
          targets := targets + [index];
        }
      }
    }

    method RandomDelay() returns (delay: Duration)
      ensures minDelay <= delay <= Max(minDelay, maxDelay)
    {
      if maxDelay <= minDelay {
        return minDelay;
      }
      var offset :| 0 <= offset <= maxDelay - minDelay;
      delay := minDelay + offset;
    }

    method InitializeCooldowns(targets: seq<Target>, clock: Clock) returns (cooldowns: map<Target, Instant>)
      modifies clock
      ensures clock.now >= old(clock.now)
      ensures cooldowns.Keys == (set t | t in targets) && Cooling(cooldowns, clock.now) == {}
    {
      var now := clock.Now();
      var ready := if targetCooldown <= now then now - targetCooldown else now;
      cooldowns := map t | t in targets :: ready;
    }

    /** Waits out every pending cooldown, so all targets are eligible when one is chosen and the choice is never
        forced. */
    method PickTarget(targets: seq<Target>, cooldowns: map<Target, Instant>, clock: Clock)
      returns (r: Result<Target, ChaosError>)
      modifies clock
      ensures clock.now >= old(clock.now)
      ensures targets == [] <==> r.Err?
      ensures r.Err? ==> r.error == NoEligibleTargets
      ensures r.Ok? ==> r.value in targets && Cooling(cooldowns, clock.now) == {}
    {
      if targets == [] {
        return Err(NoEligibleTargets);
      }
      while true
        invariant clock.now >= old(clock.now)
        decreases Cooling(cooldowns, clock.now)
      {
        ghost var before := Cooling(cooldowns, clock.now);
        var now := clock.Now();
        assert Cooling(cooldowns, now) <= before;
        var cooling := Cooling(cooldowns, now);
        if cooling != {} {
          var first := EarliestReady(cooldowns, cooling);
          clock.Sleep(cooldowns[first] - now);
          assert first in before && first !in Cooling(cooldowns, clock.now);
          continue;
        }
        var available := Filtered(targets, cooldowns, now);
        assert available == targets by {
          assert forall t <- targets :: t !in Cooling(cooldowns, now);
        }
        var k :| 0 <= k < |available|;
        return Ok(available[k]);
      }
    }

    /** One round: wait, pick, restart, and note when the node may be picked again. */
    method RestartOnce(
        targets: seq<Target>, cooldowns: map<Target, Instant>, outcome: RestartOutcome, clock: Clock)
      returns (restart: Restart, cooldowns': map<Target, Instant>)
      requires targets != []
      modifies clock
      ensures restart.target in targets && restart.succeeded == outcome.succeeds
      ensures old(clock.now) + minDelay <= restart.started <= restart.completed <= clock.now
      ensures forall t <- cooldowns :: cooldowns[t] <= restart.started
      ensures outcome.succeeds ==>
                && CoolsUntil(cooldowns', restart.target, restart.completed + targetCooldown)
                && cooldowns' == cooldowns[restart.target := cooldowns'[restart.target]]
                && cooldowns'[restart.target] <= clock.now + targetCooldown
    {
      var delay := RandomDelay();
      clock.Sleep(delay);
      var picked := PickTarget(targets, cooldowns, clock);
      assert forall t <- cooldowns :: t !in Cooling(cooldowns, clock.now);
      var target := picked.value;
      var started := clock.Now();
      clock.Sleep(outcome.takes);
      var completed := clock.Now();
      restart := Restart(target, started, completed, outcome.succeeds);
      if !outcome.succeeds {
        return restart, cooldowns;
      }
      var done := clock.Now();
      cooldowns' := cooldowns[target := done + targetCooldown];
    }

    /** The workload, driven until a restart fails or the harness aborts it (when `outcomes` is used up). */
    method Start(hasNodeControl: bool, nodeCount: nat, outcomes: seq<RestartOutcome>, clock: Clock)
      returns (error: Option<ChaosError>, log: seq<Restart>)
      modifies clock
      ensures Spaced(log, old(clock.now), minDelay, targetCooldown)
      ensures forall k :: 0 <= k < |log| ==> log[k].target < nodeCount
      ensures !hasNodeControl ==> error == Some(NoNodeControl) && log == []
      ensures hasNodeControl && !(includeNodes && nodeCount > 1) ==> error == Some(NoEligibleTargets) && log == []
      ensures hasNodeControl && includeNodes && nodeCount > 1 ==>
                if forall k :: 0 <= k < |outcomes| ==> outcomes[k].succeeds
                then error == None && |log| == |outcomes|
                else 0 < |log| <= |outcomes| && error == Some(RestartFailed(log[|log| - 1].target))
      ensures |log| <= |outcomes| && forall k :: 0 <= k < |log| ==>
                log[k].succeeded == outcomes[k].succeeds && (k < |log| - 1 ==> log[k].succeeded)
    {
      log := [];
      if !hasNodeControl {
        return Some(NoNodeControl), log;
      }
      var targets := Targets(nodeCount);
      if targets == [] {
        return Some(NoEligibleTargets), log;
      }
      var cooldowns: map<Target, Instant> := InitializeCooldowns(targets, clock);
      for k := 0 to |outcomes|
        invariant |log| == k && AllSucceeded(log, outcomes, nodeCount)
        invariant Ready(log, cooldowns, old(clock.now), clock.now)
      {
        var restart: Restart;
        ghost var before, waiting := clock.now, cooldowns;
        restart, cooldowns := RestartOnce(targets, cooldowns, outcomes[k], clock);
        NextRound(log, restart, waiting, cooldowns, old(clock.now), before, clock.now);
        log := log + [restart];
        if !outcomes[k].succeeds {
          return Some(RestartFailed(restart.target)), log;
        }
      }
      return None, log;
    }

    /** Between rounds: the restarts so far are spaced, and the last one's cooldown is on record. */
    ghost predicate Ready(log: seq<Restart>, cooldowns: map<Target, Instant>, begin: Instant, now: Instant) {
      && Spaced(log, begin, minDelay, targetCooldown)
      && if log == [] then begin <= now
         else
           var last := log[|log| - 1];
           last.completed <= now && CoolsUntil(cooldowns, last.target, last.completed + targetCooldown)
    }

    lemma NextRound(
        log: seq<Restart>, restart: Restart, cooldowns: map<Target, Instant>, cooldowns': map<Target, Instant>,
        begin: Instant, before: Instant, now: Instant)
      requires Ready(log, cooldowns, begin, before)
      requires before + minDelay <= restart.started <= restart.completed <= now
      requires forall t <- cooldowns :: cooldowns[t] <= restart.started
      requires restart.succeeded ==>
                 CoolsUntil(cooldowns', restart.target, restart.completed + targetCooldown)
      ensures Spaced(log + [restart], begin, minDelay, targetCooldown)
      ensures restart.succeeded ==> Ready(log + [restart], cooldowns', begin, now)
    {
      SpacedSnoc(log, restart, begin, minDelay, targetCooldown);
    }
  }

  ghost predicate AllSucceeded(log: seq<Restart>, outcomes: seq<RestartOutcome>, nodeCount: nat) {
    && |log| <= |outcomes|
    && forall k :: 0 <= k < |log| ==> log[k].target < nodeCount && log[k].succeeded && outcomes[k].succeeds
  }

  ghost predicate CoolsUntil(cooldowns: map<Target, Instant>, target: Target, ready: Instant) {
    target in cooldowns && cooldowns[target] >= ready
  }

  function Filtered(targets: seq<Target>, cooldowns: map<Target, Instant>, now: Instant): (r: seq<Target>)
    ensures (forall t <- targets :: t !in cooldowns || cooldowns[t] <= now) ==> r == targets
  {
    if targets == [] then []
    else
      var t := targets[|targets| - 1];
      Filtered(targets[..|targets| - 1], cooldowns, now) +
      if t !in cooldowns || cooldowns[t] <= now then [t] else []
  }

  // ----- spacing of restarts -----

  /** Each restart starts at least the minimum delay and the cooldown after the previous one completed, whichever node
      that was. */
  ghost predicate Spaced(log: seq<Restart>, begin: Instant, minDelay: Duration, cooldown: Duration) {
    && (forall k :: 0 <= k < |log| ==> log[k].started <= log[k].completed)
    && (log != [] ==> log[0].started >= begin + minDelay)
    && (forall j, k :: 0 <= j && k == j + 1 < |log| ==> log[k].started >= log[j].completed + Max(minDelay, cooldown))
  }

  lemma SpacedSnoc(log: seq<Restart>, r: Restart, begin: Instant, minDelay: Duration, cooldown: Duration)
    requires Spaced(log, begin, minDelay, cooldown) && r.started <= r.completed
    requires if log == [] then r.started >= begin + minDelay
             else r.started >= log[|log| - 1].completed + Max(minDelay, cooldown)
    ensures Spaced(log + [r], begin, minDelay, cooldown)
  {
  }

  /** Restart rate: between two restarts, one full gap passes for every restart from the first to the second. */
  lemma {:induction false} RestartRate(
      log: seq<Restart>, begin: Instant, minDelay: Duration, cooldown: Duration, j: nat, k: nat)
    requires Spaced(log, begin, minDelay, cooldown) && j < k < |log|
    ensures log[k].started >= log[j].completed + (k - j) * Max(minDelay, cooldown)
  {
    var gap := Max(minDelay, cooldown);
    if k > j + 1 {
      RestartRate(log, begin, minDelay, cooldown, j, k - 1);
      assert log[k].started >= log[k - 1].completed + gap;
      assert (k - j) * gap == (k - 1 - j) * gap + gap;
    }
  }

  /** The restarted node is cooling down at time `t`. */
  ghost predicate CoolsAt(r: Restart, cooldown: Duration, t: Instant) {
    r.completed <= t < r.completed + cooldown
  }

  /** No node is restarted while it cools down, and at no time are two restarts cooling down together: the cooldown
      acts on the whole cluster rather than per node. */
  lemma CooldownIsGlobal(
      log: seq<Restart>, begin: Instant, minDelay: Duration, cooldown: Duration, j: nat, k: nat, t: Instant)
    requires Spaced(log, begin, minDelay, cooldown) && j < k < |log|
    ensures !CoolsAt(log[j], cooldown, log[k].started)
    ensures !(CoolsAt(log[j], cooldown, t) && CoolsAt(log[k], cooldown, t))
  {
    RestartRate(log, begin, minDelay, cooldown, j, k);
    var gap := Max(minDelay, cooldown);
    assert (k - j) * gap >= gap by {
      AtLeastOnce(k - j, gap);
    }
  }

  lemma AtLeastOnce(n: nat, gap: nat)
    requires n >= 1
    ensures n * gap >= gap
  {
    assert n * gap == (n - 1) * gap + gap;
  }
}
