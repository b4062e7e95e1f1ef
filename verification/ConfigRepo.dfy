/** The config-sync barrier: hosts register and wait on one-shot reply channels; when enough have registered, or time
    is up, the registered batch is taken and every one of its channels is answered. */
module ConfigRepo {
  import opened Wrappers
  import opened Hosts
  import opened NodeConfigs

  /** Identity of a one-shot reply channel. */
  type Channel = nat

  datatype ReplyError = BuildFailed(error: ConfigError) | MissingConfigForHost
  datatype RepoResponse = Config(config: NodeConfig) | Timeout | Error(error: ReplyError)
  datatype Reply = Reply(channel: Channel, response: RepoResponse)

  /** What a batch is going to be told. */
  datatype Answer = ConfigsForAll(configs: map<Host, NodeConfig>) | ErrorForAll(error: ConfigError) | TimeoutForAll

  function ResponseTo(answer: Answer, host: Host): RepoResponse {
    match answer
    case TimeoutForAll => Timeout
    case ErrorForAll(error) => Error(BuildFailed(error))
    case ConfigsForAll(configs) => if host in configs then Config(configs[host]) else Error(MissingConfigForHost)
  }

  function BuildAnswer(p: Params, machine: Machine, order: seq<Host>): Answer
    requires |machine.randomIds| == p.nParticipants
  {
    match NodeConfigsFor(p, machine, order) case Ok(configs) => ConfigsForAll(configs) case Err(e) => ErrorForAll(e)
  }

  /** `order` lists the keys of a hash map in some order. */
  ghost predicate Lists(order: seq<Host>, batch: map<Host, Channel>) {
    DistinctHosts(order) && forall host :: host in order <==> host in batch
  }

  ghost predicate OwnChannels(hosts: map<Host, Channel>) {
    forall a <- hosts, b <- hosts :: hosts[a] == hosts[b] ==> a == b
  }

  ghost predicate OnePerChannel(replies: seq<Reply>) {
    forall i, j :: 0 <= i < j < |replies| ==> replies[i].channel != replies[j].channel
  }

  /** `replies` answers exactly the hosts of `batch` outside `pending`, each on its own channel, once. */
  ghost predicate Answered(batch: map<Host, Channel>, pending: set<Host>, answer: Answer, replies: seq<Reply>) {
    && OnePerChannel(replies)
    && (forall r <- replies :: exists host <- batch ::
          host !in pending && r == Reply(batch[host], ResponseTo(answer, host)))
    && (forall host <- batch :: host !in pending ==> Reply(batch[host], ResponseTo(answer, host)) in replies)
  }

  /** Every host of `batch` has been sent its config on its own channel. */
  ghost predicate ToldConfigs(batch: map<Host, Channel>, configs: map<Host, NodeConfig>, replies: seq<Reply>) {
    forall host <- batch :: host in configs && Reply(batch[host], Config(configs[host])) in replies
  }

  ghost predicate ToldError(batch: map<Host, Channel>, error: ConfigError, replies: seq<Reply>) {
    forall host <- batch :: Reply(batch[host], Error(BuildFailed(error))) in replies
  }

  ghost predicate ToldTimeout(batch: map<Host, Channel>, replies: seq<Reply>) {
    forall host <- batch :: Reply(batch[host], Timeout) in replies
  }

  /** Only channels of `batch` were used, each at most once: so nothing else was sent than what is known to be sent. */
  ghost predicate OnlyTo(batch: map<Host, Channel>, replies: seq<Reply>) {
    OnePerChannel(replies) && forall r <- replies :: exists host <- batch :: batch[host] == r.channel
  }

  lemma AnswerOne(batch: map<Host, Channel>, pending: set<Host>, answer: Answer, replies: seq<Reply>, host: Host)
    requires OwnChannels(batch) && Answered(batch, pending, answer, replies) && host in pending && host in batch
    ensures Answered(batch, pending - {host}, answer, replies + [Reply(batch[host], ResponseTo(answer, host))])
  {
    var reply := Reply(batch[host], ResponseTo(answer, host));
    var more := replies + [reply];
    forall i, j | 0 <= i < j < |more|
      ensures more[i].channel != more[j].channel
    {
      assert more[i] == replies[i] && replies[i] in replies;
    }
    forall r | r in more
      ensures exists h <- batch :: h !in pending - {host} && r == Reply(batch[h], ResponseTo(answer, h))
    {
      if r in replies {
        var h :| h in batch && h !in pending && r == Reply(batch[h], ResponseTo(answer, h));
        assert h !in pending - {host};
      } else {
        assert r == reply && host !in pending - {host};
      }
    }
    assert reply in more && forall r <- replies :: r in more;
  }

  // ----- the repository -----

  /** What happens while the waiting task sleeps once: hosts that register, and whether the timer fires. */
  datatype Tick = Tick(arrivals: seq<(Host, Channel)>, timerFires: bool)

  function Inserted(hosts: map<Host, Channel>, arrivals: seq<(Host, Channel)>): map<Host, Channel> {
    if arrivals == [] then hosts
    else Inserted(hosts, arrivals[..|arrivals| - 1])[arrivals[|arrivals| - 1].0 := arrivals[|arrivals| - 1].1]
  }

  /** The waiting hosts once everything that arrived during `ticks` has registered. */
  function AfterTicks(hosts: map<Host, Channel>, ticks: seq<Tick>): map<Host, Channel> {
    if ticks == [] then hosts else Inserted(AfterTicks(hosts, ticks[..|ticks| - 1]), ticks[|ticks| - 1].arrivals)
  }

  class Repository {
    const nHosts: nat
    const params: Params
    var waitingHosts: map<Host, Channel>
    var sent: seq<Reply>

    constructor (nHosts: nat, params: Params)
      ensures this.nHosts == nHosts && this.params == params && waitingHosts == map[] && sent == []
    {
      this.nHosts := nHosts;
      this.params := params;
      waitingHosts := map[];
      sent := [];
    }

    /** A host that registers again replaces its earlier channel, which is dropped unanswered. */
    method Register(host: Host, replyTx: Channel)
      modifies this`waitingHosts
      ensures waitingHosts == old(waitingHosts)[host := replyTx]
    {
      waitingHosts := waitingHosts[host := replyTx];
    }

    /** True as soon as a poll sees enough hosts; false when the timer fires first. A script that ends before either
        is a run still waiting (`None`). */
    method WaitForHosts(ticks: seq<Tick>) returns (complete: Option<bool>, ghost polls: nat)
      modifies this`waitingHosts
      ensures polls <= |ticks|
      ensures waitingHosts == AfterTicks(old(waitingHosts), ticks[..polls])
      ensures complete == Some(true) ==> |waitingHosts| >= nHosts
      ensures complete == Some(false) ==> polls > 0 && ticks[polls - 1].timerFires
      ensures complete == None ==> polls == |ticks|
      ensures forall k :: 0 <= k < polls ==> |AfterTicks(old(waitingHosts), ticks[..k])| < nHosts
    {
      polls := 0;
      for i := 0 to |ticks|
        invariant polls == i
        invariant waitingHosts == AfterTicks(old(waitingHosts), ticks[..i])
        invariant forall k :: 0 <= k < i ==> |AfterTicks(old(waitingHosts), ticks[..k])| < nHosts
      {
        if |waitingHosts| >= nHosts {
          return Some(true), polls;
        }
        RegisterAll(ticks[i].arrivals);
        assert ticks[..i + 1][..i] == ticks[..i];
        polls := i + 1;
        if ticks[i].timerFires {
          return Some(false), polls;
        }
      }
      if |waitingHosts| >= nHosts {
        return Some(true), polls;
      }
      return None, polls;
    }

    method RegisterAll(arrivals: seq<(Host, Channel)>)
      modifies this`waitingHosts
      ensures waitingHosts == Inserted(old(waitingHosts), arrivals)
    {
      for i := 0 to |arrivals|
        invariant waitingHosts == Inserted(old(waitingHosts), arrivals[..i])
      {
        assert arrivals[..i + 1][..i] == arrivals[..i];
        Register(arrivals[i].0, arrivals[i].1);
      }
      assert arrivals[..|arrivals|] == arrivals;
    }

    method TakeWaitingHosts() returns (batch: map<Host, Channel>)
      modifies this`waitingHosts
      ensures batch == old(waitingHosts) && waitingHosts == map[]
    {
      batch := waitingHosts;
      waitingHosts := map[];
    }

    method SendErrorToAll(batch: map<Host, Channel>, message: ConfigError)
      requires OwnChannels(batch)
      modifies this`sent
      ensures old(sent) <= sent && Answered(batch, {}, ErrorForAll(message), sent[|old(sent)|..])
      ensures ToldError(batch, message, sent[|old(sent)|..]) && OnlyTo(batch, sent[|old(sent)|..])
    {
      var pending := batch.Keys;
      while pending != {}
        invariant pending <= batch.Keys
        invariant old(sent) <= sent && Answered(batch, pending, ErrorForAll(message), sent[|old(sent)|..])
        decreases pending
      {
        var host :| host in pending;
        AnswerOne(batch, pending, ErrorForAll(message), sent[|old(sent)|..], host);
        SliceAppend(sent, |old(sent)|, Reply(batch[host], Error(BuildFailed(message))));
        sent := sent + [Reply(batch[host], Error(BuildFailed(message)))];
        pending := pending - {host};
      }
    }

    method SendTimeoutToAll(batch: map<Host, Channel>)
      requires OwnChannels(batch)
      modifies this`sent
      ensures old(sent) <= sent && Answered(batch, {}, TimeoutForAll, sent[|old(sent)|..])
      ensures ToldTimeout(batch, sent[|old(sent)|..]) && OnlyTo(batch, sent[|old(sent)|..])
    {
      var pending := batch.Keys;
      while pending != {}
        invariant pending <= batch.Keys
        invariant old(sent) <= sent && Answered(batch, pending, TimeoutForAll, sent[|old(sent)|..])
        decreases pending
      {
        var host :| host in pending;
        AnswerOne(batch, pending, TimeoutForAll, sent[|old(sent)|..], host);
        SliceAppend(sent, |old(sent)|, Reply(batch[host], Timeout));
        sent := sent + [Reply(batch[host], Timeout)];
        pending := pending - {host};
      }
    }

    method SendConfigsToAllHosts(batch: map<Host, Channel>, configs: map<Host, NodeConfig>)
      requires OwnChannels(batch)
      modifies this`sent
      ensures old(sent) <= sent && Answered(batch, {}, ConfigsForAll(configs), sent[|old(sent)|..])
      ensures OnlyTo(batch, sent[|old(sent)|..])
      ensures batch.Keys <= configs.Keys ==> ToldConfigs(batch, configs, sent[|old(sent)|..])
      ensures forall host <- batch :: host !in configs ==>
                Reply(batch[host], Error(MissingConfigForHost)) in sent[|old(sent)|..]
    {
      var pending := batch.Keys;
      while pending != {}
        invariant pending <= batch.Keys
        invariant old(sent) <= sent && Answered(batch, pending, ConfigsForAll(configs), sent[|old(sent)|..])
        decreases pending
      {
        var host :| host in pending;
        AnswerOne(batch, pending, ConfigsForAll(configs), sent[|old(sent)|..], host);
        SliceAppend(sent, |old(sent)|, Reply(batch[host], ResponseTo(ConfigsForAll(configs), host)));
        if host in configs {
          sent := sent + [Reply(batch[host], Config(configs[host]))];
        } else {
          sent := sent + [Reply(batch[host], Error(MissingConfigForHost))];
        }
        pending := pending - {host};
      }
    }

    /** Takes the batch and answers it. `order` is the order in which the taken map's keys are collected. */
    method AnswerBatch(complete: bool, order: seq<Host>, machine: Machine) returns (ghost answer: Answer)
      requires OwnChannels(waitingHosts) && Lists(order, waitingHosts)
      requires |machine.randomIds| == params.nParticipants
      modifies this`waitingHosts, this`sent
      ensures waitingHosts == map[] && old(sent) <= sent
      ensures answer == if complete then BuildAnswer(params, machine, order) else TimeoutForAll
      ensures Answered(old(waitingHosts), {}, answer, sent[|old(sent)|..])
      ensures OnlyTo(old(waitingHosts), sent[|old(sent)|..])
      ensures !complete ==> ToldTimeout(old(waitingHosts), sent[|old(sent)|..])
      ensures complete ==>
                match NodeConfigsFor(params, machine, order)
                case Ok(configs) => ToldConfigs(old(waitingHosts), configs, sent[|old(sent)|..])
                case Err(error) => ToldError(old(waitingHosts), error, sent[|old(sent)|..])
    {
      var batch := TakeWaitingHosts();
      if complete {
        answer := BuildAnswer(params, machine, order);
        var configs := TryCreateNodeConfigs(params, machine, order);
        match configs {
          case Err(message) => SendErrorToAll(batch, message);
          case Ok(configs) =>
            ConfigsCoverBatch(params, machine, order);
            SendConfigsToAllHosts(batch, configs);
        }
      } else {
        answer := TimeoutForAll;
        SendTimeoutToAll(batch);
      }
    }
  }

  lemma SliceAppend<T>(s: seq<T>, n: nat, x: T)
    requires n <= |s|
    ensures (s + [x])[n..] == s[n..] + [x]
  {
  }
}
