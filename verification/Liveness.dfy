/** The consensus-liveness verdict: are all nodes near the highest height, and has the network made progress? */
module Liveness {
  import opened Wrappers

  const MIN_PROGRESS_BLOCKS: nat := 5
  const MAX_LAG_ALLOWANCE: nat := 5

  /** `Below(k, ...)` is about sample `k`. */
  datatype Issue = RequestFailed(node: nat) | NetworkBelow(height: nat) | Below(sample: nat, height: nat, target: nat)

  /** `Panicked`: clamping with a lower bound above the upper one aborts the check. */
  datatype Verdict = Passed | MissingParticipants | Violations(target: nat, issues: seq<Issue>) | Panicked

  const REQUEST_RETRIES: nat := 15

  /** The first answer among the allowed attempts; an attempt that is missing from the list fails. */
  function FirstAnswer(attempts: seq<Option<nat>>, allowed: nat): Option<nat> {
    if allowed == 0 || attempts == [] then None
    else if attempts[0].Some? then attempts[0]
    else FirstAnswer(attempts[1..], allowed - 1)
  }

  ghost predicate FirstAt(attempts: seq<Option<nat>>, allowed: nat, k: nat) {
    k < |attempts| && k < allowed && attempts[k].Some? && forall m :: 0 <= m < k ==> attempts[m].None?
  }

  lemma {:induction false} FirstAnswerIsFirst(attempts: seq<Option<nat>>, allowed: nat)
    ensures FirstAnswer(attempts, allowed).None? <==>
            forall k :: 0 <= k < |attempts| && k < allowed ==> attempts[k].None?
    ensures forall k: nat :: FirstAt(attempts, allowed, k) ==> FirstAnswer(attempts, allowed) == attempts[k]
  {
    if allowed > 0 && attempts != [] && attempts[0].None? {
      FirstAnswerIsFirst(attempts[1..], allowed - 1);
      forall k: nat | FirstAt(attempts, allowed, k)
        ensures FirstAnswer(attempts, allowed) == attempts[k]
      {
        assert FirstAt(attempts[1..], allowed - 1, k - 1);
      }
    }
  }

  function AnsweredHeights(clients: seq<seq<Option<nat>>>): seq<nat> {
    if clients == [] then []
    else
      var answer := FirstAnswer(clients[|clients| - 1], REQUEST_RETRIES);
      AnsweredHeights(clients[..|clients| - 1]) + if answer.Some? then [answer.value] else []
  }

  /** A height is reported exactly when it is the first answer of some node, within its allowed attempts. */
  lemma {:induction false} HeightsAreFirstAnswers(clients: seq<seq<Option<nat>>>, height: nat)
    ensures height in AnsweredHeights(clients) <==> exists c <- clients :: AnswersFirst(c, height)
  {
    if clients != [] {
      var init, last := clients[..|clients| - 1], clients[|clients| - 1];
      HeightsAreFirstAnswers(init, height);
      AnswersFirstIff(last, height);
      assert clients == init + [last];
    }
  }

  ghost predicate AnswersFirst(attempts: seq<Option<nat>>, height: nat) {
    exists k: nat :: FirstAt(attempts, REQUEST_RETRIES, k) && attempts[k] == Some(height)
  }

  lemma AnswersFirstIff(attempts: seq<Option<nat>>, height: nat)
    ensures AnswersFirst(attempts, height) <==> FirstAnswer(attempts, REQUEST_RETRIES) == Some(height)
  {
    FirstAnswerIsFirst(attempts, REQUEST_RETRIES);
    if FirstAnswer(attempts, REQUEST_RETRIES).Some? {
      var k := FirstIndex(attempts, REQUEST_RETRIES);
    }
  }

  lemma {:induction false} FirstIndex(attempts: seq<Option<nat>>, allowed: nat) returns (k: nat)
    requires FirstAnswer(attempts, allowed).Some?
    ensures FirstAt(attempts, allowed, k) && attempts[k] == FirstAnswer(attempts, allowed)
  {
    if attempts[0].Some? {
      k := 0;
    } else {
      var rest := FirstIndex(attempts[1..], allowed - 1);
      k := rest + 1;
    }
  }

  /** A node is reported exactly when none of its allowed attempts was answered. */
  lemma {:induction false} UnansweredAreSilent(clients: seq<seq<Option<nat>>>, node: nat)
    ensures RequestFailed(node) in Unanswered(clients) <==>
            && node < |clients|
            && forall k :: 0 <= k < |clients[node]| && k < REQUEST_RETRIES ==> clients[node][k].None?
  {
    if clients != [] {
      var init, last := clients[..|clients| - 1], clients[|clients| - 1];
      UnansweredAreSilent(init, node);
      FirstAnswerIsFirst(last, REQUEST_RETRIES);
      assert clients == init + [last];
    }
  }

  function Unanswered(clients: seq<seq<Option<nat>>>): seq<Issue> {
    if clients == [] then []
    else
      Unanswered(clients[..|clients| - 1]) +
      if FirstAnswer(clients[|clients| - 1], REQUEST_RETRIES).None? then [RequestFailed(|clients| - 1)] else []
  }

  /** Asks every node until it answers, up to the retry limit: each node yields one sample or one issue, not both. */
  method CollectResults(clients: seq<seq<Option<nat>>>) returns (heights: seq<nat>, issues: seq<Issue>)
    ensures heights == AnsweredHeights(clients) && issues == Unanswered(clients)
    ensures |heights| + |issues| == |clients|
  {
    heights, issues := [], [];
    for idx := 0 to |clients|
      invariant heights == AnsweredHeights(clients[..idx]) && issues == Unanswered(clients[..idx])
      invariant |heights| + |issues| == idx
    {
      assert clients[..idx + 1][..idx] == clients[..idx];
      var attempts := clients[idx];
      var attempt := 0;
      while attempt < REQUEST_RETRIES && (attempt >= |attempts| || attempts[attempt].None?)
        invariant attempt <= REQUEST_RETRIES
        invariant FirstAnswer(attempts, REQUEST_RETRIES)
               == FirstAnswer(if attempt <= |attempts| then attempts[attempt..] else [], REQUEST_RETRIES - attempt)
      {
        attempt := attempt + 1;
      }
      if attempt < REQUEST_RETRIES {
        heights := heights + [attempts[attempt].value];
      } else {
        issues := issues + [RequestFailed(idx)];
      }
    }
    assert clients[..|clients|] == clients;
  }

  function MaxHeight(heights: seq<nat>): (m: nat)
    ensures forall h <- heights :: h <= m
    ensures heights != [] ==> m in heights
  {
    if heights == [] then 0
    else
      var rest := MaxHeight(heights[..|heights| - 1]);
      assert heights == heights[..|heights| - 1] + [heights[|heights| - 1]];
      if heights[|heights| - 1] >= rest then heights[|heights| - 1] else rest
  }

  function TargetFor(hint: nat, maxHeight: nat): nat {
    if hint == 0 || hint > maxHeight then maxHeight else hint
  }

  function EffectiveLagAllowance(lagAllowance: nat, target: nat): (r: nat)
    requires lagAllowance <= MAX_LAG_ALLOWANCE
    ensures lagAllowance <= r <= MAX_LAG_ALLOWANCE
    ensures r == target / 10 || (r == lagAllowance && target / 10 < r) || (r == MAX_LAG_ALLOWANCE && target / 10 > r)
  {
    if target / 10 < lagAllowance then lagAllowance
    else if target / 10 > MAX_LAG_ALLOWANCE then MAX_LAG_ALLOWANCE
    else target / 10
  }

  /** The lowest height a node may have. */
  ghost function Floor(lagAllowance: nat, hint: nat, heights: seq<nat>): int
    requires lagAllowance <= MAX_LAG_ALLOWANCE
  {
    var target := TargetFor(hint, MaxHeight(heights));
    target - EffectiveLagAllowance(lagAllowance, target)
  }

  /** The network is live: it reached the minimum height, and no node is below the floor. */
  ghost predicate Live(lagAllowance: nat, hint: nat, heights: seq<nat>)
    requires lagAllowance <= MAX_LAG_ALLOWANCE
  {
    MaxHeight(heights) >= MIN_PROGRESS_BLOCKS && forall h <- heights :: h >= Floor(lagAllowance, hint, heights)
  }

  /** One issue for each sample below the floor, in sample order. */
  function Lagging(heights: seq<nat>, target: nat, lag: nat): seq<Issue> {
    if heights == [] then []
    else
      var k := |heights| - 1;
      Lagging(heights[..k], target, lag) + if heights[k] + lag < target then [Below(k, heights[k], target)] else []
  }

  lemma {:induction false} NobodyLagsIff(heights: seq<nat>, target: nat, lag: nat)
    ensures Lagging(heights, target, lag) == [] <==> forall h <- heights :: h + lag >= target
  {
    if heights != [] {
      var k := |heights| - 1;
      NobodyLagsIff(heights[..k], target, lag);
      assert heights[k] in heights && forall h <- heights[..k] :: h in heights;
      assert heights == heights[..k] + [heights[k]];
    }
  }

  /** Exactly the lagging samples are reported, each with its own height. */
  lemma {:induction false} LaggingIsComplete(heights: seq<nat>, target: nat, lag: nat, issue: Issue)
    ensures issue in Lagging(heights, target, lag) <==>
              && issue.Below? && issue.target == target && issue.sample < |heights|
              && issue.height == heights[issue.sample] && issue.height + lag < target
  {
    if heights != [] {
      LaggingIsComplete(heights[..|heights| - 1], target, lag, issue);
    }
  }

  /** What is wrong with a set of samples: the failed requests, then the lack of progress, then the laggards. */
  function Issues(lag: nat, target: nat, heights: seq<nat>, failedRequests: seq<Issue>): seq<Issue> {
    failedRequests
    + (if MaxHeight(heights) < MIN_PROGRESS_BLOCKS then [NetworkBelow(MaxHeight(heights))] else [])
    + Lagging(heights, target, lag)
  }

  /** Passes exactly when at least one node answered, no request failed for good, and the network is live; otherwise
      every violation is reported. */
  method Report(lagAllowance: nat, targetHint: nat, heights: seq<nat>, failedRequests: seq<Issue>)
    returns (verdict: Verdict)
    ensures heights == [] <==> verdict == MissingParticipants
    ensures heights != [] && lagAllowance > MAX_LAG_ALLOWANCE <==> verdict == Panicked
    ensures verdict == Passed <==>
            heights != [] && lagAllowance <= MAX_LAG_ALLOWANCE
            && failedRequests == [] && Live(lagAllowance, targetHint, heights)
    ensures verdict.Violations? && 0 < targetHint <= MaxHeight(heights) ==> verdict.target == targetHint
    ensures verdict.Violations? && !(0 < targetHint <= MaxHeight(heights)) ==>
              verdict.target in heights && forall h <- heights :: h <= verdict.target
    ensures lagAllowance <= MAX_LAG_ALLOWANCE && verdict.Violations? ==>
              var target := TargetFor(targetHint, MaxHeight(heights));
              var lag := EffectiveLagAllowance(lagAllowance, target);
              verdict == Violations(target, Issues(lag, target, heights, failedRequests))
  {
    if heights == [] {
      return MissingParticipants;
    }
    var maxHeight := MaxHeight(heights);
    var target := targetHint;
    if target == 0 || target > maxHeight {
      target := maxHeight;
    }
    if lagAllowance > MAX_LAG_ALLOWANCE {
      return Panicked;
    }
    var lag := EffectiveLagAllowance(lagAllowance, target);
    NoIssuesIff(lagAllowance, targetHint, heights, failedRequests);
    var issues := CollectIssues(lag, target, heights, failedRequests);
    return if issues == [] then Passed else Violations(target, issues);
  }

  /** Everything that is reported: each failed request, too little progress with the height reached, and each
      laggard. */
  lemma ReportedIff(lag: nat, target: nat, heights: seq<nat>, failedRequests: seq<Issue>, issue: Issue)
    requires heights != []
    ensures issue in Issues(lag, target, heights, failedRequests) <==>
            || issue in failedRequests
            || (issue.NetworkBelow? && issue.height in heights && issue.height < MIN_PROGRESS_BLOCKS
                && forall h <- heights :: h <= issue.height)
            || (issue.Below? && issue.target == target && issue.sample < |heights|
                && issue.height == heights[issue.sample] && issue.height + lag < target)
  {
    LaggingIsComplete(heights, target, lag, issue);
  }

  method CollectIssues(lag: nat, target: nat, heights: seq<nat>, failedRequests: seq<Issue>)
    returns (issues: seq<Issue>)
    ensures issues == Issues(lag, target, heights, failedRequests)
  {
    issues := failedRequests;
    if MaxHeight(heights) < MIN_PROGRESS_BLOCKS {
      issues := issues + [NetworkBelow(MaxHeight(heights))];
    }
    ghost var first := issues;
    for k := 0 to |heights|
      invariant issues == first + Lagging(heights[..k], target, lag)
    {
      assert heights[..k + 1][..k] == heights[..k];
      if heights[k] + lag < target {
        issues := issues + [Below(k, heights[k], target)];
      }
    }
    assert heights[..|heights|] == heights;
  }

  lemma NoIssuesIff(lagAllowance: nat, hint: nat, heights: seq<nat>, failedRequests: seq<Issue>)
    requires lagAllowance <= MAX_LAG_ALLOWANCE
    ensures var target := TargetFor(hint, MaxHeight(heights));
            var lag := EffectiveLagAllowance(lagAllowance, target);
            Issues(lag, target, heights, failedRequests) == []
            <==> failedRequests == [] && Live(lagAllowance, hint, heights)
  {
    var target := TargetFor(hint, MaxHeight(heights));
    NobodyLagsIff(heights, target, EffectiveLagAllowance(lagAllowance, target));
  }

  /** The floor rises with the target: one more block of target costs at most one more block of allowance. */
  lemma {:induction false} FloorMonotone(lagAllowance: nat, a: nat, b: nat)
    requires lagAllowance <= MAX_LAG_ALLOWANCE && a <= b
    ensures a - EffectiveLagAllowance(lagAllowance, a) <= b - EffectiveLagAllowance(lagAllowance, b)
    decreases b
  {
    if a < b {
      FloorMonotone(lagAllowance, a, b - 1);
    }
  }

  /** Liveness without mentioning the target: the network has made progress, and every node is within the allowance of
      the highest height or, if there is a hint, of the hinted height. */
  lemma LiveIff(lagAllowance: nat, hint: nat, heights: seq<nat>, highest: nat)
    requires lagAllowance <= MAX_LAG_ALLOWANCE
    requires highest in heights && forall h <- heights :: h <= highest
    ensures Live(lagAllowance, hint, heights) <==>
            && highest >= MIN_PROGRESS_BLOCKS
            && forall h <- heights ::
                 || h + EffectiveLagAllowance(lagAllowance, highest) >= highest
                 || (hint > 0 && h + EffectiveLagAllowance(lagAllowance, hint) >= hint)
  {
    if hint <= highest {
      FloorMonotone(lagAllowance, hint, highest);
    } else {
      FloorMonotone(lagAllowance, highest, hint);
    }
  }

  /** The verdict is antitone in the hint: a network that is live for some hint is live for every smaller positive
      one, and a network that is live without a hint is live for any. */
  lemma LivenessAntitone(lagAllowance: nat, hint: nat, smaller: nat, heights: seq<nat>)
    requires lagAllowance <= MAX_LAG_ALLOWANCE && Live(lagAllowance, hint, heights)
    ensures 0 < smaller <= hint || hint == 0 ==> Live(lagAllowance, smaller, heights)
  {
    if 0 < smaller <= hint || hint == 0 {
      var m := MaxHeight(heights);
      FloorMonotone(lagAllowance, TargetFor(smaller, m), TargetFor(hint, m));
    }
  }

  /** A live network has every node within five blocks of the target, and without a hint any two nodes within five
      blocks of each other. */
  lemma LiveMeansClose(lagAllowance: nat, hint: nat, heights: seq<nat>, i: nat, j: nat)
    requires lagAllowance <= MAX_LAG_ALLOWANCE && Live(lagAllowance, hint, heights)
    requires i < |heights| && j < |heights|
    ensures heights[i] + MAX_LAG_ALLOWANCE >= TargetFor(hint, MaxHeight(heights))
    ensures hint == 0 || hint >= MaxHeight(heights) ==> heights[i] <= heights[j] + MAX_LAG_ALLOWANCE
  {
    assert heights[i] in heights && heights[j] in heights;
  }
}
