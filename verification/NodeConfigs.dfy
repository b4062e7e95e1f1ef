/** The config-sync server's answer: one configuration per announced host. */
module NodeConfigs {
  import opened Wrappers
  import opened Ledger
  import opened Addresses
  import opened Layout
  import opened Text
  import opened Hosts
  import opened Wallet
  import opened Genesis
  import opened PeerRewrite

  datatype Params = Params(
    nParticipants: nat, wallet: seq<WalletAccount>, ids: Option<seq<NodeId>>, blendPorts: Option<seq<Port>>)

  /** What the machine supplies while configs are built: the ids drawn when none are configured, and the free local
      ports handed out, in order, until none is left. */
  datatype Machine = Machine(randomIds: seq<NodeId>, freePorts: seq<Port>)

  datatype ConfigError =
    | HostCountMismatch(actual: nat, expected: nat)
    | EmptyParticipants
    | IdCountMismatch(actual: nat, expected: nat)
    | BlendPortCountMismatch(actual: nat, expected: nat)
    | PortAllocationFailed
    | HostConfigLenMismatch

  /** The keys a node's key management service is preloaded with. */
  datatype KmsKeys = KmsKeys(signer: Ed25519Key, zk: ZkKey)

  datatype NodeConfig = NodeConfig(
    identifier: string, genesisTx: GenesisTx, leaderSk: ZkKey, fundingSk: ZkKey,
    nodeKey: Ed25519Key, networkPort: Port, natAddress: Multiaddr, initialPeers: seq<Multiaddr>,
    blendListen: Multiaddr, apiPort: Port, testingHttpPort: Port, kms: KmsKeys)

  const UNSPECIFIED: Ipv4Addr := 0

  function ValidateInputs(hosts: seq<Host>, p: Params): Outcome<ConfigError> {
    if |hosts| != p.nParticipants then Fail(HostCountMismatch(|hosts|, p.nParticipants))
    else if p.nParticipants == 0 then Fail(EmptyParticipants)
    else if p.ids.Some? && |p.ids.value| != p.nParticipants then
      Fail(IdCountMismatch(|p.ids.value|, p.nParticipants))
    else if p.blendPorts.Some? && |p.blendPorts.value| != p.nParticipants then
      Fail(BlendPortCountMismatch(|p.blendPorts.value|, p.nParticipants))
    else Pass
  }

  function Ids(p: Params, machine: Machine): seq<NodeId> {
    match p.ids case Some(ids) => ids case None => machine.randomIds
  }

  function BlendPorts(p: Params, hosts: seq<Host>): seq<Port> {
    match p.blendPorts
    case Some(ports) => ports
    case None => seq(|hosts|, i requires 0 <= i < |hosts| => hosts[i].blendPort)
  }

  function SwarmConfigs(ids: seq<NodeId>, freePorts: seq<Port>): seq<SwarmConfig>
    requires |ids| <= |freePorts|
  {
    seq(|ids|, i requires 0 <= i < |ids| => SwarmConfig(freePorts[i], Ed25519Key(ids[i])))
  }

  function PeerIds(ids: seq<NodeId>): seq<PeerId> {
    seq(|ids|, i requires 0 <= i < |ids| => PeerIdOf(Ed25519Key(ids[i])))
  }

  /** Config of the host at index `i` of the sorted hosts. Peers follow the default layout, a star around host 0. */
  function ConfigAt(ids: seq<NodeId>, wallet: seq<WalletAccount>, sorted: seq<Host>, i: nat): NodeConfig
    requires i < |sorted| == |ids|
  {
    var host := sorted[i];
    NodeConfig(
      host.identifier, BatchGenesis(ids, wallet, HostLocators(sorted)),
      NoteKey(LEADER_PREFIX, ids[i]), NoteKey(SDP_PREFIX, ids[i]),
      Ed25519Key(ids[i]), host.networkPort, QuicAddress(host.ip, host.networkPort),
      if i == 0 then [] else [HostAddress(sorted[0], PeerIdOf(Ed25519Key(ids[0])))],
      QuicAddress(UNSPECIFIED, host.blendPort), host.apiPort, host.testingHttpPort,
      KmsKeys(Ed25519Key(ids[i]), ZkKeyOf(Ed25519PublicKey(Ed25519Key(ids[i])))))
  }

  function CreateKmsConfigs(blendConfigs: seq<BlendConfig>): seq<KmsKeys> {
    seq(|blendConfigs|, i requires 0 <= i < |blendConfigs| =>
      KmsKeys(blendConfigs[i].signer, blendConfigs[i].secretZkKey))
  }

  function LastIndex(hosts: seq<Host>, host: Host): (r: nat)
    requires host in hosts
    ensures r < |hosts| && hosts[r] == host && forall k :: r < k < |hosts| ==> hosts[k] != host
  {
    if hosts[|hosts| - 1] == host then |hosts| - 1 else LastIndex(hosts[..|hosts| - 1], host)
  }

  /** The whole answer, in closed form. */
  function NodeConfigsFor(p: Params, machine: Machine, hosts: seq<Host>): Result<map<Host, NodeConfig>, ConfigError>
    requires |machine.randomIds| == p.nParticipants
  {
    var sorted := SortHosts(hosts);
    match ValidateInputs(sorted, p)
    case Fail(error) => Err(error)
    case Pass =>
      var ids := Ids(p, machine);
      if |machine.freePorts| < |ids| then Err(PortAllocationFailed)
      else Ok(ConfigMap(ids, p.wallet, sorted))
  }

  function ConfigMap(ids: seq<NodeId>, wallet: seq<WalletAccount>, sorted: seq<Host>): map<Host, NodeConfig>
    requires |sorted| == |ids|
  {
    map host | host in sorted :: ConfigAt(ids, wallet, sorted, LastIndex(sorted, host))
  }

  method TryCreateNodeConfigs(p: Params, machine: Machine, hosts: seq<Host>)
    returns (r: Result<map<Host, NodeConfig>, ConfigError>)
    requires |machine.randomIds| == p.nParticipants
    ensures r == NodeConfigsFor(p, machine, hosts)
  {
    var sorted := SortHosts(hosts);
    var valid := ValidateInputs(sorted, p);
    if valid.Fail? {
      return Err(valid.error);
    }
    var ids := Ids(p, machine);
    var blendPorts := BlendPorts(p, sorted);
    if |machine.freePorts| < |ids| {
      return Err(PortAllocationFailed);
    }
    var blendConfigs := CreateBlendConfigs(ids, blendPorts);
    var swarms := SwarmConfigs(ids, machine.freePorts);
    var templates := InitialPeersByNetworkLayout(swarms, Star);
    var originalPorts := Ports(swarms);
    var rewritten := RewriteInitialPeers(templates, originalPorts, sorted, PeerIds(ids));
    StarRewrites(swarms, templates, sorted, ids);
    assert rewritten.Ok?;
    var initialPeers := rewritten.value;
    var consensus := HostConsensus(ids, p.wallet, blendConfigs, sorted);
    assert consensus.Ok?;
    var kms := CreateKmsConfigs(blendConfigs);
    r := ConfigureHosts(sorted, consensus.value, swarms, initialPeers, kms);
    AssembledIsConfigMap(ids, p.wallet, sorted, consensus.value, swarms, initialPeers, kms);
  }

  lemma AssembledIsConfigMap(
      ids: seq<NodeId>, wallet: seq<WalletAccount>, sorted: seq<Host>,
      consensus: seq<ConsensusConfig>, swarms: seq<SwarmConfig>, initialPeers: seq<seq<Multiaddr>>,
      kms: seq<KmsKeys>)
    requires |sorted| == |ids| == |consensus| == |swarms| == |initialPeers| == |kms|
    requires forall i :: 0 <= i < |ids| ==>
               && consensus[i].genesisTx == BatchGenesis(ids, wallet, HostLocators(sorted))
               && consensus[i].leaderSk == NoteKey(LEADER_PREFIX, ids[i])
               && consensus[i].fundingSk == NoteKey(SDP_PREFIX, ids[i])
               && swarms[i].nodeKey == Ed25519Key(ids[i])
               && kms[i] == KmsKeys(Ed25519Key(ids[i]), ZkKeyOf(Ed25519PublicKey(Ed25519Key(ids[i]))))
               && initialPeers[i] == if i == 0 then [] else [HostAddress(sorted[0], PeerIdOf(Ed25519Key(ids[0])))]
    ensures Assembled(sorted, consensus, swarms, initialPeers, kms) == ConfigMap(ids, wallet, sorted)
  {
    forall host | host in sorted
      ensures Assembled(sorted, consensus, swarms, initialPeers, kms)[host] == ConfigMap(ids, wallet, sorted)[host]
    {
      var i := LastIndex(sorted, host);
      assert ConfigFor(host, consensus[i], swarms[i], initialPeers[i], kms[i]) == ConfigAt(ids, wallet, sorted, i);
    }
  }

  function Assembled(
      hosts: seq<Host>, consensus: seq<ConsensusConfig>, swarms: seq<SwarmConfig>, initialPeers: seq<seq<Multiaddr>>,
      kms: seq<KmsKeys>)
    : map<Host, NodeConfig>
    requires |hosts| <= |consensus| && |hosts| <= |swarms| && |hosts| <= |initialPeers| && |hosts| <= |kms|
  {
    map host | host in hosts ::
      var i := LastIndex(hosts, host); ConfigFor(host, consensus[i], swarms[i], initialPeers[i], kms[i])
  }

  function ConfigFor(
      host: Host, consensus: ConsensusConfig, swarm: SwarmConfig, initialPeers: seq<Multiaddr>, kms: KmsKeys)
    : NodeConfig
  {
    NodeConfig(
      host.identifier, consensus.genesisTx, consensus.leaderSk, consensus.fundingSk,
      swarm.nodeKey, host.networkPort, QuicAddress(host.ip, host.networkPort), initialPeers,
      QuicAddress(UNSPECIFIED, host.blendPort), host.apiPort, host.testingHttpPort, kms)
  }

  lemma AssembledSnoc(
      hosts: seq<Host>, last: Host, consensus: seq<ConsensusConfig>, swarms: seq<SwarmConfig>,
      initialPeers: seq<seq<Multiaddr>>, kms: seq<KmsKeys>)
    requires |hosts| < |consensus| && |hosts| < |swarms| && |hosts| < |initialPeers| && |hosts| < |kms|
    ensures var i := |hosts|;
            var lastConfig := ConfigFor(last, consensus[i], swarms[i], initialPeers[i], kms[i]);
            && Assembled(hosts + [last], consensus, swarms, initialPeers, kms)
            == Assembled(hosts, consensus, swarms, initialPeers, kms)[last := lastConfig]
  {
    forall host | host in hosts + [last]
      ensures LastIndex(hosts + [last], host) == if host == last then |hosts| else LastIndex(hosts, host)
    {
      assert (hosts + [last])[..|hosts|] == hosts;
    }
  }

  /** The assembly loop. A host listed twice keeps the config of its last position. */
  method ConfigureHosts(
      hosts: seq<Host>, consensus: seq<ConsensusConfig>, swarms: seq<SwarmConfig>, initialPeers: seq<seq<Multiaddr>>,
      kms: seq<KmsKeys>)
    returns (r: Result<map<Host, NodeConfig>, ConfigError>)
    ensures r.Ok? <==>
            |hosts| <= |consensus| && |hosts| <= |swarms| && |hosts| <= |initialPeers| && |hosts| <= |kms|
    ensures r.Err? ==> r.error == ConfigError.HostConfigLenMismatch
    ensures r.Ok? ==> r.value == Assembled(hosts, consensus, swarms, initialPeers, kms)
  {
    var configured: map<Host, NodeConfig> := map[];
    for i := 0 to |hosts|
      invariant i <= |consensus| && i <= |swarms| && i <= |initialPeers| && i <= |kms|
      invariant configured == Assembled(hosts[..i], consensus, swarms, initialPeers, kms)
    {
      if i >= |consensus| || i >= |swarms| || i >= |initialPeers| || i >= |kms| {
        return Err(ConfigError.HostConfigLenMismatch);
      }
      AssembledSnoc(hosts[..i], hosts[i], consensus, swarms, initialPeers, kms);
      assert hosts[..i + 1] == hosts[..i] + [hosts[i]];
      configured := configured[hosts[i] := ConfigFor(hosts[i], consensus[i], swarms[i], initialPeers[i], kms[i])];
    }
    assert hosts[..|hosts|] == hosts;
    return Ok(configured);
  }

  lemma StarRewrites(swarms: seq<SwarmConfig>, templates: seq<seq<Multiaddr>>, hosts: seq<Host>, ids: seq<NodeId>)
    requires |templates| == |swarms| == |hosts| == |ids|
    requires forall i :: 0 <= i < |swarms| ==> templates[i] == Template(Star, swarms, i)
    ensures forall i :: 0 <= i < |swarms| ==>
              var targets := Targets(templates[i], Ports(swarms), i);
              && InRange(targets, |hosts|)
              && Lookup(HostAddresses(hosts, PeerIds(ids)), targets)
                 == if i == 0 then [] else [HostAddress(hosts[0], PeerIdOf(Ed25519Key(ids[0])))]
  {
    RewriteExactIff(Star, swarms);
  }

  // ----- what every answer satisfies -----

  /** So many hosts are the participants, the given vectors match, and there are enough local ports. */
  ghost predicate Configurable(p: Params, machine: Machine, hostCount: nat) {
    && hostCount == p.nParticipants > 0
    && (p.ids.Some? ==> |p.ids.value| == p.nParticipants)
    && (p.blendPorts.Some? ==> |p.blendPorts.value| == p.nParticipants)
    && |machine.freePorts| >= p.nParticipants
  }

  /** Configs are built exactly for batches of the configured size with matching vectors, as long as local ports
      last. */
  lemma ConfigsBuiltIff(p: Params, machine: Machine, hosts: seq<Host>)
    requires |machine.randomIds| == p.nParticipants
    ensures NodeConfigsFor(p, machine, hosts).Ok? <==> Configurable(p, machine, |hosts|)
  {
    SortHostsKeepsHosts(hosts);
  }

  /** Which check refuses a batch: host count, participant count, ids, blend ports, local ports, in this order. */
  lemma ConfigsRefusedBy(p: Params, machine: Machine, hosts: seq<Host>)
    requires |machine.randomIds| == p.nParticipants
    ensures var r, n := NodeConfigsFor(p, machine, hosts), p.nParticipants;
            var count, some := |hosts| == n, n > 0;
            var ids, ports := p.ids.Some? ==> |p.ids.value| == n, p.blendPorts.Some? ==> |p.blendPorts.value| == n;
            && (r == Err(HostCountMismatch(|hosts|, n)) <==> !count)
            && (r == Err(EmptyParticipants) <==> count && !some)
            && (r.Err? && r.error.IdCountMismatch? <==> count && some && !ids)
            && (r.Err? && r.error.BlendPortCountMismatch? <==> count && some && ids && !ports)
            && (r == Err(PortAllocationFailed) <==> count && some && ids && ports && |machine.freePorts| < n)
  {
    SortHostsKeepsHosts(hosts);
  }

  /** Built configs cover every host of the batch and nobody else. */
  lemma ConfigsCoverBatch(p: Params, machine: Machine, hosts: seq<Host>)
    requires |machine.randomIds| == p.nParticipants
    requires NodeConfigsFor(p, machine, hosts).Ok?
    ensures forall host :: host in NodeConfigsFor(p, machine, hosts).value <==> host in hosts
  {
    SortHostsKeepsHosts(hosts);
  }

  /** All hosts of a batch share one genesis, and it is well formed. */
  lemma ConfigsShareGenesis(p: Params, machine: Machine, hosts: seq<Host>, a: Host, b: Host)
    requires |machine.randomIds| == p.nParticipants
    requires NodeConfigsFor(p, machine, hosts).Ok?
    requires a in NodeConfigsFor(p, machine, hosts).value && b in NodeConfigsFor(p, machine, hosts).value
    ensures var configs := NodeConfigsFor(p, machine, hosts).value;
            configs[a].genesisTx == configs[b].genesisTx && WellFormed(configs[a].genesisTx)
  {
    BatchGenesisWellFormed(Ids(p, machine), p.wallet, HostLocators(SortHosts(hosts)));
  }

  /** Each host can act as the provider declared at its address: the declaration carrying its locator names the public
      halves of the keys it is given. */
  lemma HostsHoldDeclaredKeys(p: Params, machine: Machine, hosts: seq<Host>, host: Host) returns (i: nat)
    requires |machine.randomIds| == p.nParticipants
    requires NodeConfigsFor(p, machine, hosts).Ok? && host in NodeConfigsFor(p, machine, hosts).value
    ensures var config := NodeConfigsFor(p, machine, hosts).value[host];
            var ops := config.genesisTx.mantleTx.ops;
            && i + 1 < |ops| && ops[i + 1].SDPDeclare?
            && ops[i + 1].declaration.locators == [QuicAddress(host.ip, host.blendPort)]
            && ops[i + 1].declaration.providerId == Ed25519PublicKey(config.kms.signer)
            && ops[i + 1].declaration.zkId == ZkPublicKey(config.kms.zk)
  {
    var sorted := SortHosts(hosts);
    i := LastIndex(sorted, host);
    DeclaredKeys(Ids(p, machine), p.wallet, sorted, i);
    assert NodeConfigsFor(p, machine, hosts).value[host] == ConfigAt(Ids(p, machine), p.wallet, sorted, i);
  }

  lemma DeclaredKeys(ids: seq<NodeId>, wallet: seq<WalletAccount>, sorted: seq<Host>, i: nat)
    requires |sorted| == |ids| && i < |ids|
    ensures var ops := ConfigAt(ids, wallet, sorted, i).genesisTx.mantleTx.ops;
            var kms := ConfigAt(ids, wallet, sorted, i).kms;
            && i + 1 < |ops| && ops[i + 1].SDPDeclare?
            && ops[i + 1].declaration.locators == [QuicAddress(sorted[i].ip, sorted[i].blendPort)]
            && ops[i + 1].declaration.providerId == Ed25519PublicKey(kms.signer)
            && ops[i + 1].declaration.zkId == ZkPublicKey(kms.zk)
  {
  }

  /** Each host is configured with the addresses and ports it announced: it listens for peers and is reachable from
      outside on its network port, and takes blend traffic on its blend port, to which the declaration of
      `HostsHoldDeclaredKeys` leads. */
  lemma HostsGetTheirOwnPorts(p: Params, machine: Machine, hosts: seq<Host>, host: Host)
    requires |machine.randomIds| == p.nParticipants
    requires NodeConfigsFor(p, machine, hosts).Ok? && host in NodeConfigsFor(p, machine, hosts).value
    ensures var config := NodeConfigsFor(p, machine, hosts).value[host];
            && config.identifier == host.identifier && config.networkPort == host.networkPort
            && Reaches(config.natAddress, host.ip, host.networkPort, None)
            && Reaches(config.blendListen, UNSPECIFIED, host.blendPort, None)
            && config.apiPort == host.apiPort && config.testingHttpPort == host.testingHttpPort
  {
    var anybody := PeerIdOf(Ed25519Key(seq(32, _ => 0)));
    QuicReaches(host.ip, host.networkPort, anybody);
    QuicReaches(UNSPECIFIED, host.blendPort, anybody);
  }

  /** Every initial peer of a config leads to another host of the batch: to the external address and the port that host
      is configured with, and to the identity it holds. */
  lemma InitialPeersReachHosts(p: Params, machine: Machine, hosts: seq<Host>, host: Host, addr: Multiaddr)
    returns (other: Host)
    requires |machine.randomIds| == p.nParticipants && DistinctHosts(hosts)
    requires NodeConfigsFor(p, machine, hosts).Ok? && host in NodeConfigsFor(p, machine, hosts).value
    requires addr in NodeConfigsFor(p, machine, hosts).value[host].initialPeers
    ensures var configs := NodeConfigsFor(p, machine, hosts).value;
            && other in configs && other != host
            && addr == configs[other].natAddress + [P2p(PeerIdOf(configs[other].nodeKey))]
            && Reaches(addr, other.ip, configs[other].networkPort, Some(PeerIdOf(configs[other].nodeKey)))
  {
    var sorted := SortHosts(hosts);
    var i := LastIndex(sorted, host);
    SortedStayDistinct(hosts);
    other := sorted[0];
    assert LastIndex(sorted, other) == 0;
    QuicReaches(other.ip, other.networkPort, PeerIdOf(Ed25519Key(Ids(p, machine)[0])));
  }

  lemma SortedStayDistinct(hosts: seq<Host>)
    requires DistinctHosts(hosts)
    ensures DistinctHosts(SortHosts(hosts))
  {
    var sorted := SortHosts(hosts);
    SortHostsIsStableSort(hosts);
    forall i, j | 0 <= i < j < |sorted|
      ensures sorted[i] != sorted[j]
    {
      if sorted[i] == sorted[j] {
        MultiplicityAtLeastTwo(sorted, i, j);
        DistinctMultiplicity(hosts, sorted[i]);
      }
    }
  }

  lemma SortHostsKeepsHosts(hosts: seq<Host>)
    ensures |SortHosts(hosts)| == |hosts|
    ensures forall host :: host in SortHosts(hosts) <==> host in hosts
  {
    SortHostsIsStableSort(hosts);
    PermutationKeepsMembers(SortHosts(hosts), hosts);
  }

  lemma PermutationKeepsMembers(a: seq<Host>, b: seq<Host>)
    requires Permutation(a, b)
    ensures |a| == |b| && forall host :: host in a <==> host in b
  {
    assert |a| == |multiset(a)| == |multiset(b)| == |b|;
    forall host
      ensures host in a <==> host in b
    {
      assert host in a <==> host in multiset(a);
      assert host in b <==> host in multiset(b);
    }
  }

  /** Hosts with distinct numeric suffixes get the same configs whatever order they were collected in. */
  lemma ConfigsOrderIndependent(p: Params, machine: Machine, hosts: seq<Host>, other: seq<Host>)
    requires |machine.randomIds| == p.nParticipants
    requires DistinctKeys(hosts) && Permutation(other, hosts)
    ensures NodeConfigsFor(p, machine, other) == NodeConfigsFor(p, machine, hosts)
  {
    DistinctKeysOrderIndependent(hosts, other);
  }

  /** When the hosts are node-0 .. node-(n-1), in whatever order, host node-i is given the i-th identity: its
      configured id as node key and the leader key of that id. */
  lemma NumberedHostsGetTheirIdentity(p: Params, machine: Machine, hosts: seq<Host>, numbered: seq<Host>, i: nat)
    requires |machine.randomIds| == p.nParticipants
    requires |numbered| <= U64_MODULUS && Permutation(hosts, numbered)
    requires forall k :: 0 <= k < |numbered| ==> numbered[k].identifier == NodeLabel(k)
    requires NodeConfigsFor(p, machine, hosts).Ok? && i < |numbered|
    ensures var configs := NodeConfigsFor(p, machine, hosts).value;
            && numbered[i] in configs && i < |Ids(p, machine)|
            && configs[numbered[i]].nodeKey == Ed25519Key(Ids(p, machine)[i])
            && configs[numbered[i]].leaderSk == NoteKey(LEADER_PREFIX, Ids(p, machine)[i])
            && configs[numbered[i]].initialPeers ==
               if i == 0 then [] else [HostAddress(numbered[0], PeerIdOf(Ed25519Key(Ids(p, machine)[0])))]
  {
    NumberedHostsKeepTheirNumber(hosts, numbered);
    var k := LastIndex(numbered, numbered[i]);
    assert NodeLabel(k) == NodeLabel(i);
    NodeLabelInjective(k, i);
  }
}
