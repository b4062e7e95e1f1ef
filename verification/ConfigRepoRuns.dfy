/** Every interleaving of registrations with the waiting task: what each reply channel is told, and how often. */
module ConfigRepoRuns {
  import opened Wrappers
  import opened Hosts
  import opened NodeConfigs
  import opened ConfigRepo

  datatype Phase =
    | Waiting
    | Complete
    | Expired
    | Taken(batch: map<Host, Channel>)
    | Replying(batch: map<Host, Channel>, pending: set<Host>, answer: Answer)
    | Finished(batch: map<Host, Channel>, answer: Answer)

  /** Atomic steps: each holds the lock, or touches only what the waiting task owns. */
  datatype Event =
    | Register(host: Host, channel: Channel)
    | Poll
    | TimerFires
    | Take
    | Build(order: seq<Host>, machine: Machine)
    | SendReply(host: Host)
    | Finish

  datatype Setup = Setup(nHosts: nat, params: Params)

  datatype State = State(phase: Phase, waiting: map<Host, Channel>, issued: set<Channel>, sent: seq<Reply>)

  const START := State(Waiting, map[], {}, [])

  ghost predicate Enabled(setup: Setup, s: State, e: Event) {
    match e
    case Register(_, channel) => channel !in s.issued  // every request opens a fresh channel
    case Poll => s.phase.Waiting?
    case TimerFires => s.phase.Waiting?
    case Take => s.phase.Complete? || s.phase.Expired?
    case Build(order, machine) =>
      s.phase.Taken? && Lists(order, s.phase.batch) && |machine.randomIds| == setup.params.nParticipants
    case SendReply(host) => s.phase.Replying? && host in s.phase.pending && host in s.phase.batch
    case Finish => s.phase.Replying? && s.phase.pending == {}
  }

  ghost function Step(setup: Setup, s: State, e: Event): State
    requires Enabled(setup, s, e)
  {
    match e
    case Register(host, channel) => s.(waiting := s.waiting[host := channel], issued := s.issued + {channel})
    case Poll => if |s.waiting| >= setup.nHosts then s.(phase := Complete) else s
    case TimerFires => s.(phase := Expired)
    case Take =>
      s.(waiting := map[],
         phase := if s.phase.Complete? then Taken(s.waiting) else Replying(s.waiting, s.waiting.Keys, TimeoutForAll))
    case Build(order, machine) =>
      s.(phase := Replying(s.phase.batch, s.phase.batch.Keys, BuildAnswer(setup.params, machine, order)))
    case SendReply(host) =>
      s.(sent := s.sent + [Reply(s.phase.batch[host], ResponseTo(s.phase.answer, host))],
         phase := s.phase.(pending := s.phase.pending - {host}))
    case Finish => s.(phase := Finished(s.phase.batch, s.phase.answer))
  }

  /** The state after a run, if every step of it was enabled. */
  ghost function After(setup: Setup, events: seq<Event>): Option<State> {
    if events == [] then Some(START)
    else
      match After(setup, events[..|events| - 1])
      case None => None
      case Some(s) =>
        if Enabled(setup, s, events[|events| - 1]) then Some(Step(setup, s, events[|events| - 1])) else None
  }

  ghost predicate ValidRun(setup: Setup, events: seq<Event>) {
    After(setup, events).Some?
  }

  // ----- the invariant -----

  ghost predicate Honest(setup: Setup, batch: map<Host, Channel>, answer: Answer) {
    match answer
    case TimeoutForAll => true
    case ErrorForAll(_) => |batch| >= setup.nHosts
    case ConfigsForAll(configs) =>
      configs.Keys == batch.Keys && |batch| == setup.params.nParticipants > 0 && |batch| >= setup.nHosts
  }

  ghost predicate Issued(hosts: map<Host, Channel>, issued: set<Channel>) {
    forall h <- hosts :: hosts[h] in issued
  }

  ghost predicate Apart(a: map<Host, Channel>, b: map<Host, Channel>) {
    forall h <- a, k <- b :: a[h] != b[k]
  }

  ghost predicate BatchInv(s: State, batch: map<Host, Channel>) {
    OwnChannels(batch) && Issued(batch, s.issued) && Apart(s.waiting, batch)
  }

  ghost predicate Inv(setup: Setup, s: State) {
    && OwnChannels(s.waiting) && Issued(s.waiting, s.issued)
    && match s.phase
       case Waiting => s.sent == []
       case Complete => s.sent == [] && |s.waiting| >= setup.nHosts
       case Expired => s.sent == []
       case Taken(batch) => s.sent == [] && |batch| >= setup.nHosts && BatchInv(s, batch)
       case Replying(batch, pending, answer) =>
         pending <= batch.Keys && BatchInv(s, batch)
         && Honest(setup, batch, answer) && Answered(batch, pending, answer, s.sent)
       case Finished(batch, answer) =>
         BatchInv(s, batch) && Honest(setup, batch, answer) && Answered(batch, {}, answer, s.sent)
  }

  lemma ListedSize(order: seq<Host>, batch: map<Host, Channel>)
    requires Lists(order, batch)
    ensures |order| == |batch|
  {
    assert batch.Keys == set h | h in order;
    DistinctSize(order);
  }

  lemma {:induction false} DistinctSize(order: seq<Host>)
    requires DistinctHosts(order)
    ensures |set h | h in order| == |order|
  {
    if order != [] {
      var init, last := order[..|order| - 1], order[|order| - 1];
      DistinctSize(init);
      assert order == init + [last];
      assert (set h | h in order) == (set h | h in init) + {last};
    }
  }

  /** With distinct numeric suffixes, what a batch is told does not depend on the order in which the hash map happened
      to list it. */
  lemma AnswerOrderIndependent(
      p: Params, machine: Machine, batch: map<Host, Channel>, order: seq<Host>, other: seq<Host>)
    requires Lists(order, batch) && Lists(other, batch) && DistinctKeys(order)
    requires |machine.randomIds| == p.nParticipants
    ensures BuildAnswer(p, machine, order) == BuildAnswer(p, machine, other)
  {
    forall host
      ensures multiset(order)[host] == multiset(other)[host]
    {
      DistinctMultiplicity(order, host);
      DistinctMultiplicity(other, host);
    }
    assert Permutation(other, order);
    ConfigsOrderIndependent(p, machine, order, other);
  }

  lemma AnswerHonest(setup: Setup, batch: map<Host, Channel>, order: seq<Host>, machine: Machine)
    requires Lists(order, batch) && |machine.randomIds| == setup.params.nParticipants && |batch| >= setup.nHosts
    ensures Honest(setup, batch, BuildAnswer(setup.params, machine, order))
  {
    ConfigsBuiltIff(setup.params, machine, order);
    ListedSize(order, batch);
    if NodeConfigsFor(setup.params, machine, order).Ok? {
      ConfigsCoverBatch(setup.params, machine, order);
    }
  }

  lemma RegisterKeepsInv(setup: Setup, s: State, host: Host, channel: Channel)
    requires Inv(setup, s) && channel !in s.issued
    ensures Inv(setup, Step(setup, s, Register(host, channel)))
  {
    assert |s.waiting[host := channel]| >= |s.waiting|;
  }

  lemma StepKeepsInv(setup: Setup, s: State, e: Event)
    requires Inv(setup, s) && Enabled(setup, s, e)
    ensures Inv(setup, Step(setup, s, e))
  {
    match e {
      case Register(host, channel) => RegisterKeepsInv(setup, s, host, channel);
      case Build(order, machine) => AnswerHonest(setup, s.phase.batch, order, machine);
      case SendReply(host) => AnswerOne(s.phase.batch, s.phase.pending, s.phase.answer, s.sent, host);
      case _ =>
    }
  }

  lemma {:induction false} RunKeepsInv(setup: Setup, events: seq<Event>)
    requires ValidRun(setup, events)
    ensures Inv(setup, After(setup, events).value)
  {
    if events != [] {
      var before := events[..|events| - 1];
      RunKeepsInv(setup, before);
      StepKeepsInv(setup, After(setup, before).value, events[|events| - 1]);
    }
  }

  // ----- what every interleaving guarantees -----

  /** No channel is ever answered twice. */
  lemma AtMostOneReply(setup: Setup, events: seq<Event>)
    requires ValidRun(setup, events)
    ensures OnePerChannel(After(setup, events).value.sent)
  {
    RunKeepsInv(setup, events);
  }

  /** All replies of a run are of one kind, "missing config for host" is never among them, and configs are only ever
      sent when exactly as many hosts as there are participants were taken. */
  lemma OneKindOfReply(setup: Setup, events: seq<Event>)
    requires ValidRun(setup, events)
    ensures var sent := After(setup, events).value.sent;
            && (forall a <- sent, b <- sent ::
                  (a.response.Config? <==> b.response.Config?) && (a.response.Timeout? <==> b.response.Timeout?))
            && (forall r <- sent :: r.response != Error(MissingConfigForHost))
            && (forall r <- sent :: r.response.Config? ==>
                  var phase := After(setup, events).value.phase;
                  (phase.Replying? || phase.Finished?) && |phase.batch| == setup.params.nParticipants > 0)
  {
    RunKeepsInv(setup, events);
  }

  /** The hosts registered by a run, each with its latest channel. */
  ghost function Registrations(events: seq<Event>): map<Host, Channel> {
    if events == [] then map[]
    else
      var before, last := Registrations(events[..|events| - 1]), events[|events| - 1];
      if last.Register? then before[last.host := last.channel] else before
  }

  /** What had been registered when the batch was taken. */
  ghost function BatchOf(events: seq<Event>): Option<map<Host, Channel>> {
    if events == [] then None
    else
      var before := events[..|events| - 1];
      if BatchOf(before).Some? then BatchOf(before)
      else if events[|events| - 1].Take? then Some(Registrations(before))
      else None
  }

  ghost predicate TracksHistory(s: State, events: seq<Event>) {
    match s.phase
    case Taken(batch) => BatchOf(events) == Some(batch)
    case Replying(batch, _, _) => BatchOf(events) == Some(batch)
    case Finished(batch, _) => BatchOf(events) == Some(batch)
    case _ => BatchOf(events) == None && s.waiting == Registrations(events)
  }

  lemma {:induction false} RunTracksHistory(setup: Setup, events: seq<Event>)
    requires ValidRun(setup, events)
    ensures TracksHistory(After(setup, events).value, events)
  {
    if events != [] {
      RunTracksHistory(setup, events[..|events| - 1]);
    }
  }

  /** Once a run has finished, a channel has been answered exactly when it was, at the moment the batch was taken, the
      latest channel registered for its host. Channels replaced by a second registration of the same host, and
      channels registered after the take, are never answered. */
  lemma AnsweredIff(setup: Setup, events: seq<Event>, channel: Channel)
    requires ValidRun(setup, events) && After(setup, events).value.phase.Finished?
    ensures BatchOf(events).Some?
    ensures (exists r <- After(setup, events).value.sent :: r.channel == channel)
       <==> (exists host <- BatchOf(events).value :: BatchOf(events).value[host] == channel)
  {
    RunKeepsInv(setup, events);
    RunTracksHistory(setup, events);
    var s := After(setup, events).value;
    forall host | host in s.phase.batch
      ensures Reply(s.phase.batch[host], ResponseTo(s.phase.answer, host)) in s.sent
    {
    }
  }

  /** What decided the answer of a run: the timer, or building configs for the taken batch. */
  ghost function Decision(events: seq<Event>): Option<Event> {
    if events == [] then None
    else
      var before, last := Decision(events[..|events| - 1]), events[|events| - 1];
      if before.Some? then before else if last.TimerFires? || last.Build? then Some(last) else None
  }

  ghost predicate Decides(setup: Setup, batch: map<Host, Channel>, decision: Option<Event>, answer: Answer) {
    match decision
    case Some(TimerFires) => answer == TimeoutForAll
    case Some(Build(order, machine)) =>
      && Lists(order, batch) && |machine.randomIds| == setup.params.nParticipants
      && answer == BuildAnswer(setup.params, machine, order)
    case _ => false
  }

  ghost predicate FollowsDecision(setup: Setup, s: State, decision: Option<Event>) {
    match s.phase
    case Expired => decision == Some(TimerFires)
    case Replying(batch, _, answer) => Decides(setup, batch, decision, answer)
    case Finished(batch, answer) => Decides(setup, batch, decision, answer)
    case _ => decision == None
  }

  lemma {:induction false} RunFollowsDecision(setup: Setup, events: seq<Event>)
    requires ValidRun(setup, events)
    ensures FollowsDecision(setup, After(setup, events).value, Decision(events))
  {
    if events != [] {
      RunFollowsDecision(setup, events[..|events| - 1]);
    }
  }

  ghost predicate ToldOutcome(
      batch: map<Host, Channel>, built: Result<map<Host, NodeConfig>, ConfigError>, sent: seq<Reply>)
  {
    match built
    case Ok(configs) => ToldConfigs(batch, configs, sent)
    case Err(error) => ToldError(batch, error, sent)
  }

  /** The timer's batch is told of the timeout; a built batch its configs, or why they could not be built. */
  ghost predicate ToldByDecision(setup: Setup, batch: map<Host, Channel>, decision: Option<Event>, sent: seq<Reply>) {
    match decision
    case Some(TimerFires) => ToldTimeout(batch, sent)
    case Some(Build(order, machine)) =>
      && Lists(order, batch) && |machine.randomIds| == setup.params.nParticipants
      && ToldOutcome(batch, NodeConfigsFor(setup.params, machine, order), sent)
    case _ => false
  }

  /** In a finished run every host of the batch has been told what its decision calls for, on its own channel, and
      nobody else has been told anything. */
  lemma BatchFullyAnswered(setup: Setup, events: seq<Event>)
    requires ValidRun(setup, events) && After(setup, events).value.phase.Finished?
    ensures BatchOf(events).Some? && OnlyTo(BatchOf(events).value, After(setup, events).value.sent)
    ensures ToldByDecision(setup, BatchOf(events).value, Decision(events), After(setup, events).value.sent)
  {
    RunKeepsInv(setup, events);
    RunTracksHistory(setup, events);
    RunFollowsDecision(setup, events);
    var s := After(setup, events).value;
    AnsweredTells(s.phase.batch, s.phase.answer, s.sent);
  }

  lemma AnsweredTells(batch: map<Host, Channel>, answer: Answer, sent: seq<Reply>)
    requires Answered(batch, {}, answer, sent)
    ensures OnlyTo(batch, sent)
    ensures match answer
            case TimeoutForAll => ToldTimeout(batch, sent)
            case ErrorForAll(error) => ToldError(batch, error, sent)
            case ConfigsForAll(configs) => batch.Keys <= configs.Keys ==> ToldConfigs(batch, configs, sent)
  {
    forall r | r in sent
      ensures exists host <- batch :: batch[host] == r.channel
    {
      var host :| host in batch && r == Reply(batch[host], ResponseTo(answer, host));
    }
    forall host | host in batch
      ensures Reply(batch[host], ResponseTo(answer, host)) in sent
    {
    }
  }

  /** A finished run has configured somebody exactly when it did not time out, as many hosts as there are participants
      were taken, the vectors match, and local ports lasted. */
  lemma ConfiguredIff(setup: Setup, events: seq<Event>)
    requires ValidRun(setup, events) && After(setup, events).value.phase.Finished?
    ensures BatchOf(events).Some? && Decision(events).Some?
    ensures (exists r <- After(setup, events).value.sent :: r.response.Config?) <==>
            && Decision(events).value.Build?
            && Configurable(setup.params, Decision(events).value.machine, |BatchOf(events).value|)
  {
    BatchFullyAnswered(setup, events);
    var batch, sent := BatchOf(events).value, After(setup, events).value.sent;
    match Decision(events).value {
      case Build(order, machine) => BuildConfiguresIff(setup, batch, order, machine, sent);
      case _ => NobodyConfigured(batch, Timeout, sent);
    }
  }

  lemma BuildConfiguresIff(
      setup: Setup, batch: map<Host, Channel>, order: seq<Host>, machine: Machine, sent: seq<Reply>)
    requires OnlyTo(batch, sent) && Lists(order, batch) && |machine.randomIds| == setup.params.nParticipants
    requires ToldOutcome(batch, NodeConfigsFor(setup.params, machine, order), sent)
    ensures (exists r <- sent :: r.response.Config?) <==> Configurable(setup.params, machine, |batch|)
  {
    ListedSize(order, batch);
    ConfigsBuiltIff(setup.params, machine, order);
    OutcomeConfiguresIff(batch, NodeConfigsFor(setup.params, machine, order), sent);
  }

  lemma OutcomeConfiguresIff(
      batch: map<Host, Channel>, built: Result<map<Host, NodeConfig>, ConfigError>, sent: seq<Reply>)
    requires OnlyTo(batch, sent) && ToldOutcome(batch, built, sent)
    ensures (exists r <- sent :: r.response.Config?) <==> built.Ok? && |batch| > 0
  {
    if built.Err? {
      NobodyConfigured(batch, Error(BuildFailed(built.error)), sent);
    } else if |batch| > 0 {
      EverybodyConfigured(batch, built.value, sent);
    }
  }

  lemma EverybodyConfigured(batch: map<Host, Channel>, configs: map<Host, NodeConfig>, sent: seq<Reply>)
    requires ToldConfigs(batch, configs, sent) && |batch| > 0
    ensures exists r <- sent :: r.response.Config?
  {
    var host :| host in batch;
    assert Reply(batch[host], Config(configs[host])) in sent;
  }

  lemma NobodyConfigured(batch: map<Host, Channel>, told: RepoResponse, sent: seq<Reply>)
    requires OnlyTo(batch, sent) && !told.Config?
    requires forall host <- batch :: Reply(batch[host], told) in sent
    ensures forall r <- sent :: !r.response.Config?
  {
    forall r | r in sent
      ensures !r.response.Config?
    {
      var host :| host in batch && batch[host] == r.channel;
      SameChannelSameReply(sent, r, Reply(batch[host], told));
    }
  }

  lemma SameChannelSameReply(sent: seq<Reply>, r: Reply, other: Reply)
    requires OnePerChannel(sent) && r in sent && other in sent && r.channel == other.channel
    ensures r == other
  {
    var i :| 0 <= i < |sent| && sent[i] == r;
    var j :| 0 <= j < |sent| && sent[j] == other;
  }

  /** Errors and configs are only sent once as many hosts as awaited were taken, so a server that awaits more hosts
      than it has participants never configures anybody. */
  lemma AwaitingTooManyNeverConfigures(setup: Setup, events: seq<Event>)
    requires ValidRun(setup, events)
    ensures forall r <- After(setup, events).value.sent :: !r.response.Timeout? ==>
              var phase := After(setup, events).value.phase;
              (phase.Replying? || phase.Finished?) && |phase.batch| >= setup.nHosts
    ensures setup.nHosts > setup.params.nParticipants ==>
              forall r <- After(setup, events).value.sent :: !r.response.Config?
  {
    RunKeepsInv(setup, events);
  }

  /** The waiting task is never stuck: until it has finished, some step of its own is possible (building needs the
      machine to supply as many random ids as there are participants). */
  lemma NeverStuck(setup: Setup, events: seq<Event>, order: seq<Host>, machine: Machine) returns (next: Event)
    requires ValidRun(setup, events) && !After(setup, events).value.phase.Finished?
    requires After(setup, events).value.phase.Taken? ==> Lists(order, After(setup, events).value.phase.batch)
    requires |machine.randomIds| == setup.params.nParticipants
    ensures !next.Register? && ValidRun(setup, events + [next])
  {
    RunKeepsInv(setup, events);
    var s := After(setup, events).value;
    match s.phase {
      case Waiting => next := Poll;
      case Complete => next := Take;
      case Expired => next := Take;
      case Taken(_) => next := Build(order, machine);
      case Replying(_, pending, _) =>
        if pending == {} {
          next := Finish;
        } else {
          var host :| host in pending;
          next := SendReply(host);
        }
    }
    RunOne(setup, events, next);
  }

  /** Where further events lead from a state, if each of them is enabled in its turn. */
  ghost function RunFrom(setup: Setup, s: State, events: seq<Event>): Option<State>
    decreases |events|
  {
    if events == [] then Some(s)
    else if Enabled(setup, s, events[0]) then RunFrom(setup, Step(setup, s, events[0]), events[1..])
    else None
  }

  lemma RunCons(setup: Setup, s: State, e: Event, rest: seq<Event>)
    requires Enabled(setup, s, e)
    ensures RunFrom(setup, s, [e] + rest) == RunFrom(setup, Step(setup, s, e), rest)
  {
    assert ([e] + rest)[1..] == rest;
  }

  lemma RunOne(setup: Setup, events: seq<Event>, e: Event)
    requires ValidRun(setup, events) && Enabled(setup, After(setup, events).value, e)
    ensures After(setup, events + [e]) == Some(Step(setup, After(setup, events).value, e))
  {
    assert (events + [e])[..|events|] == events;
  }

  lemma {:induction false} RunOn(setup: Setup, events: seq<Event>, more: seq<Event>)
    requires ValidRun(setup, events) && RunFrom(setup, After(setup, events).value, more).Some?
    ensures After(setup, events + more) == RunFrom(setup, After(setup, events).value, more)
    decreases |more|
  {
    if more == [] {
      assert events + more == events;
    } else {
      var e, rest := more[0], more[1..];
      RunOne(setup, events, e);
      assert more == [e] + rest;
      RunOn(setup, events + [e], rest);
      Regroup(events, e, rest);
    }
  }

  lemma Regroup(events: seq<Event>, e: Event, rest: seq<Event>)
    ensures events + ([e] + rest) == events + [e] + rest
  {
  }

  /** A task that is replying can answer everybody left and finish. */
  lemma {:induction false} DrainReplies(setup: Setup, s: State, pending: set<Host>) returns (more: seq<Event>)
    requires s.phase.Replying? && pending == s.phase.pending <= s.phase.batch.Keys
    ensures forall e <- more :: !e.Register?
    ensures var end := RunFrom(setup, s, more);
            end.Some? && end.value.phase == Finished(s.phase.batch, s.phase.answer)
    decreases pending
  {
    if pending == {} {
      more := [Finish];
      RunCons(setup, s, Finish, []);
    } else {
      var host :| host in pending;
      var rest := DrainReplies(setup, Step(setup, s, SendReply(host)), pending - {host});
      RunCons(setup, s, SendReply(host), rest);
      more := [SendReply(host)] + rest;
    }
  }

  lemma AnswerWaiting(setup: Setup, s: State, order: seq<Host>, machine: Machine) returns (more: seq<Event>)
    requires s.phase.Waiting? && |s.waiting| >= setup.nHosts
    requires Lists(order, s.waiting) && |machine.randomIds| == setup.params.nParticipants
    ensures forall e <- more :: !e.Register?
    ensures var end := RunFrom(setup, s, more);
            end.Some? && end.value.phase == Finished(s.waiting, BuildAnswer(setup.params, machine, order))
  {
    var complete := Step(setup, s, Poll);
    var taken := Step(setup, complete, Take);
    var replying := Step(setup, taken, Build(order, machine));
    var rest := DrainReplies(setup, replying, s.waiting.Keys);
    RunCons(setup, taken, Build(order, machine), rest);
    RunCons(setup, complete, Take, [Build(order, machine)] + rest);
    more := [Poll] + ([Take] + ([Build(order, machine)] + rest));
    RunCons(setup, s, Poll, [Take] + ([Build(order, machine)] + rest));
  }

  /** From any state in which enough hosts are waiting, the task can, by steps of its own, answer all of them with the
      outcome of building configs for them, in whatever order they are listed. */
  lemma EnoughHostsCanBeAnswered(setup: Setup, events: seq<Event>, order: seq<Host>, machine: Machine)
    returns (more: seq<Event>, end: State)
    requires ValidRun(setup, events) && After(setup, events).value.phase.Waiting?
    requires |After(setup, events).value.waiting| >= setup.nHosts
    requires Lists(order, After(setup, events).value.waiting) && |machine.randomIds| == setup.params.nParticipants
    ensures (forall e <- more :: !e.Register?) && After(setup, events + more) == Some(end) && end.phase.Finished?
    ensures ToldOutcome(
              After(setup, events).value.waiting, NodeConfigsFor(setup.params, machine, order), end.sent)
  {
    var s := After(setup, events).value;
    more := AnswerWaiting(setup, s, order, machine);
    RunOn(setup, events, more);
    end := After(setup, events + more).value;
    FinishedTells(setup, events + more, s.waiting, order, machine);
  }

  lemma FinishedTells(
      setup: Setup, events: seq<Event>, batch: map<Host, Channel>, order: seq<Host>, machine: Machine)
    requires ValidRun(setup, events) && Lists(order, batch) && |machine.randomIds| == setup.params.nParticipants
    requires After(setup, events).value.phase == Finished(batch, BuildAnswer(setup.params, machine, order))
    ensures ToldOutcome(batch, NodeConfigsFor(setup.params, machine, order), After(setup, events).value.sent)
  {
    RunKeepsInv(setup, events);
    AnsweredTells(batch, BuildAnswer(setup.params, machine, order), After(setup, events).value.sent);
    if NodeConfigsFor(setup.params, machine, order).Ok? {
      ConfigsCoverBatch(setup.params, machine, order);
    }
  }
}
