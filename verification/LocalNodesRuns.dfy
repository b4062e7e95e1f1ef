/** Whole lives of a local cluster: any sequence of starts, with any peer selection and any failures, and stops. */
module LocalNodesRuns {
  import opened Wrappers
  import opened Addresses
  import opened Ledger
  import opened Layout
  import opened PeerCounts
  import opened Text
  import opened LocalNodes

  datatype Op = Start(name: string, selection: PeerSelection, launch: Launch) | StopAll

  ghost function Apply(t: Topology, seed: Seed, s: State, op: Op): State {
    match op
    case Start(name, selection, launch) => Started(t, s, name, selection, launch)
    case StopAll => Seeded(seed)
  }

  ghost function After(t: Topology, seed: Seed, ops: seq<Op>): State {
    if ops == [] then Seeded(seed) else Apply(t, seed, After(t, seed, ops[..|ops| - 1]), ops[|ops| - 1])
  }

  /** How each running node was asked to select its peers, in start order. */
  ghost function Selections(t: Topology, seed: Seed, ops: seq<Op>): seq<PeerSelection> {
    if ops == [] then []
    else
      var before, s := Selections(t, seed, ops[..|ops| - 1]), After(t, seed, ops[..|ops| - 1]);
      match ops[|ops| - 1]
      case StopAll => []
      case Start(name, selection, launch) =>
        if StartedNode(t, s, name, selection, launch).Ok? then before + [selection] else before
  }

  /** What the machine provided for each running node, in start order. */
  ghost function Launches(t: Topology, seed: Seed, ops: seq<Op>): seq<Launch> {
    if ops == [] then []
    else
      var before, s := Launches(t, seed, ops[..|ops| - 1]), After(t, seed, ops[..|ops| - 1]);
      match ops[|ops| - 1]
      case StopAll => []
      case Start(name, selection, launch) =>
        if StartedNode(t, s, name, selection, launch).Ok? then before + [launch] else before
  }

  /** The seeds the harness uses: none, or the topology whose nodes were already started elsewhere. */
  ghost predicate StandardSeed(t: Topology, seed: Seed) {
    seed == EMPTY_SEED || seed == SeedFromTopology(t)
  }

  /** Count, ports and nodes describe the same cluster, seed first, in start order; the prebuilt ports come first. */
  ghost predicate PortsAligned(t: Topology, seed: Seed, s: State) {
    && s.nodeCount == |s.peerPorts| == seed.nodeCount + |s.nodes|
    && seed.peerPorts <= s.peerPorts
    && (forall k :: 0 <= k < |s.nodes| ==> s.peerPorts[seed.nodeCount + k] == s.nodes[k].port)
    && (forall i :: 0 <= i < |s.peerPorts| && i < |t.swarms| ==> s.peerPorts[i] == t.swarms[i].port)
  }

  /** There is one name per node, and one client per name that was given here. */
  ghost predicate NamesAligned(seed: Seed, s: State) {
    && |s.peerPortsByName| == s.nodeCount
    && s.clientsByName.Keys == s.peerPortsByName.Keys - seed.peerPortsByName.Keys
    && seed.peerPortsByName.Keys <= s.peerPortsByName.Keys
  }

  /** Names denote ports of the cluster, and clients talk to the running node on their name's port. */
  ghost predicate LookupsAligned(s: State) {
    && (forall name <- s.peerPortsByName :: s.peerPortsByName[name] in s.peerPorts)
    && (forall name <- s.clientsByName ::
          && s.clientsByName[name] in s.nodes
          && name in s.peerPortsByName && s.clientsByName[name].port == s.peerPortsByName[name])
  }

  ghost predicate Aligned(t: Topology, seed: Seed, s: State) {
    PortsAligned(t, seed, s) && NamesAligned(seed, s) && LookupsAligned(s)
  }

  /** What the node at position `i` was configured to dial is what its selection means in cluster `s`. */
  ghost predicate DialsAsSelected(t: Topology, s: State, i: nat, selection: PeerSelection, peers: seq<Multiaddr>) {
    match selection
    case DefaultLayout => i <= |s.peerPorts| && PeerPorts(peers) == Lookup(s.peerPorts, Dialed(t.layout, i))
    case NoPeers => peers == []
    case Named(names) =>
      && Known(names, s.peerPortsByName) && |peers| == |names|
      && forall n :: 0 <= n < |names| ==> Reaches(peers[n], LOCALHOST, s.peerPortsByName[names[n]], None)
  }

  ghost predicate GraphIs(t: Topology, seed: Seed, s: State, selections: seq<PeerSelection>) {
    && |selections| == |s.nodes|
    && forall k :: 0 <= k < |s.nodes| ==>
         DialsAsSelected(t, s, seed.nodeCount + k, selections[k], s.nodes[k].initialPeers)
  }

  // ----- seeds -----

  lemma {:induction false} NamedPortsAre(t: Topology, n: nat)
    requires n <= |t.swarms|
    ensures |NamedPorts(t, n)| == n
    ensures forall name <- NamedPorts(t, n) :: exists i :: 0 <= i < n && name == NodeLabel(i)
    ensures forall i :: 0 <= i < n ==>
              NodeLabel(i) in NamedPorts(t, n) && NamedPorts(t, n)[NodeLabel(i)] == t.swarms[i].port
  {
    if n > 0 {
      NamedPortsAre(t, n - 1);
      forall i | 0 <= i < n - 1
        ensures NodeLabel(i) != NodeLabel(n - 1)
      {
        if NodeLabel(i) == NodeLabel(n - 1) {
          NodeLabelInjective(i, n - 1);
        }
      }
    }
  }

  lemma SeedAligned(t: Topology, seed: Seed)
    requires StandardSeed(t, seed)
    ensures Aligned(t, seed, Seeded(seed))
  {
    NamedPortsAre(t, |t.swarms|);
    forall name | name in NamedPorts(t, |t.swarms|)
      ensures NamedPorts(t, |t.swarms|)[name] in Ports(t.swarms)
    {
      var i :| 0 <= i < |t.swarms| && name == NodeLabel(i);
      assert Ports(t.swarms)[i] == t.swarms[i].port;
    }
  }

  // ----- one start -----

  lemma PortsStayAligned(t: Topology, seed: Seed, s: State, name: string, node: RunningNode)
    requires PortsAligned(t, seed, s)
    requires s.nodeCount < |t.swarms| ==> node.port == t.swarms[s.nodeCount].port
    ensures PortsAligned(t, seed, Registered(s, name, node))
  {
  }

  lemma NamesStayAligned(seed: Seed, s: State, name: string, node: RunningNode)
    requires NamesAligned(seed, s) && name !in s.peerPortsByName
    ensures NamesAligned(seed, Registered(s, name, node))
  {
    var s' := Registered(s, name, node);
    MapGrows(s.peerPortsByName, name, node.port);
    MapGrows(s.clientsByName, name, node);
    SetGrows(s.peerPortsByName.Keys, seed.peerPortsByName.Keys, name);
  }

  lemma MapGrows<V>(m: map<string, V>, key: string, value: V)
    ensures m[key := value].Keys == m.Keys + {key}
    ensures key !in m ==> |m[key := value]| == |m| + 1
  {
  }

  lemma SetGrows<T>(all: set<T>, some: set<T>, x: T)
    requires x !in all && some <= all
    ensures (all + {x}) - some == (all - some) + {x} && some <= all + {x}
  {
  }

  lemma LookupsStayAligned(s: State, name: string, node: RunningNode)
    requires LookupsAligned(s) && name !in s.peerPortsByName
    ensures LookupsAligned(Registered(s, name, node))
  {
  }

  /** Growing the cluster does not change what earlier selections mean. */
  lemma SelectionStable(t: Topology, s: State, name: string, node: RunningNode,
                        i: nat, selection: PeerSelection, peers: seq<Multiaddr>)
    requires DialsAsSelected(t, s, i, selection, peers) && name !in s.peerPortsByName
    ensures DialsAsSelected(t, Registered(s, name, node), i, selection, peers)
  {
    var s' := Registered(s, name, node);
    match selection {
      case DefaultLayout =>
        assert Lookup(s'.peerPorts, Dialed(t.layout, i)) == Lookup(s.peerPorts, Dialed(t.layout, i));
      case NoPeers =>
      case Named(_) =>
    }
  }

  lemma PrebuiltDialsSamePorts(t: Topology, ports: seq<Port>, i: nat)
    requires i <= |ports| && i < |t.swarms|
    requires forall k :: 0 <= k < i ==> ports[k] == t.swarms[k].port
    ensures PeerPorts(PrebuiltPeers(t, i)) == Lookup(ports, Dialed(t.layout, i))
  {
    IncrementalMatchesBatch(t.layout, t.swarms, ports, i);
    assert Lookup(Ports(t.swarms), Dialed(t.layout, i)) == Lookup(ports, Dialed(t.layout, i));
  }

  lemma ComputedDialsLayout(t: Topology, ports: seq<Port>)
    ensures PeerPorts(BuildInitialPeers(t.layout, ports)) == Lookup(ports, Dialed(t.layout, |ports|))
  {
    IncrementalMatchesBatch(t.layout, [], ports, |ports|);
    assert ports[..|ports|] == ports;
  }

  lemma NamedReach(names: seq<string>, peerPortsByName: map<string, Port>)
    requires Known(names, peerPortsByName)
    ensures var peers := NamedAddresses(names, peerPortsByName);
            forall n :: 0 <= n < |names| ==> Reaches(peers[n], LOCALHOST, peerPortsByName[names[n]], None)
  {
    forall n | 0 <= n < |names|
      ensures Reaches(NodeAddressFromPort(peerPortsByName[names[n]]), LOCALHOST, peerPortsByName[names[n]], None)
    {
      QuicReaches(LOCALHOST, peerPortsByName[names[n]], PeerIdOf(Ed25519Key(seq(32, _ => 0))));
    }
  }

  /** A freshly configured node dials what its selection means, before and beyond the prebuilt topology. */
  lemma NewNodeDialsAsSelected(t: Topology, seed: Seed, s: State, selection: PeerSelection, launch: Launch)
    requires PortsAligned(t, seed, s) && NodeFor(t, s, selection, launch).Ok?
    ensures DialsAsSelected(t, s, s.nodeCount, selection, NodeFor(t, s, selection, launch).value.initialPeers)
    ensures s.nodeCount < |t.swarms| ==>
              NodeFor(t, s, selection, launch).value.port == t.swarms[s.nodeCount].port
  {
    if selection.DefaultLayout? {
      ComputedDialsLayout(t, s.peerPorts);
      if s.nodeCount < |t.swarms| {
        PrebuiltDialsSamePorts(t, s.peerPorts, s.nodeCount);
      }
    }
    if selection.Named? {
      NamedReach(selection.names, s.peerPortsByName);
    }
  }

  lemma StartKeepsGraph(t: Topology, seed: Seed, s: State, selections: seq<PeerSelection>,
                        name: string, selection: PeerSelection, launch: Launch)
    requires Aligned(t, seed, s) && GraphIs(t, seed, s, selections)
    requires StartedNode(t, s, name, selection, launch).Ok?
    ensures var s' := Started(t, s, name, selection, launch);
            Aligned(t, seed, s') && GraphIs(t, seed, s', selections + [selection])
  {
    var fullName, node := LabelFor(name, s.nodeCount), StartedNode(t, s, name, selection, launch).value;
    NewNodeDialsAsSelected(t, seed, s, selection, launch);
    PortsStayAligned(t, seed, s, fullName, node);
    NamesStayAligned(seed, s, fullName, node);
    LookupsStayAligned(s, fullName, node);
    GraphGrows(t, seed, s, selections, fullName, node, selection);
  }

  lemma GraphGrows(t: Topology, seed: Seed, s: State, selections: seq<PeerSelection>,
                   name: string, node: RunningNode, selection: PeerSelection)
    requires GraphIs(t, seed, s, selections) && name !in s.peerPortsByName
    requires s.nodeCount == seed.nodeCount + |s.nodes|
    requires DialsAsSelected(t, s, s.nodeCount, selection, node.initialPeers)
    ensures GraphIs(t, seed, Registered(s, name, node), selections + [selection])
  {
    forall k | 0 <= k <= |s.nodes|
      ensures var one, peers := (selections + [selection])[k], (s.nodes + [node])[k].initialPeers;
              DialsAsSelected(t, Registered(s, name, node), seed.nodeCount + k, one, peers)
    {
      if k < |s.nodes| {
        SelectionStable(t, s, name, node, seed.nodeCount + k, selections[k], s.nodes[k].initialPeers);
      } else {
        SelectionStable(t, s, name, node, seed.nodeCount + k, selection, node.initialPeers);
      }
    }
  }

  // ----- whole lives -----

  /** After any sequence of starts and stops the bookkeeping is aligned, and the peer graph is the one selected: a
      node started with the default layout dials exactly the ports the batch layout gives its position among all
      ports in start order, whether it came from the prebuilt topology or joined beyond it. */
  lemma {:induction false} JoinsMatchBatchLayout(t: Topology, seed: Seed, ops: seq<Op>)
    requires StandardSeed(t, seed)
    ensures Aligned(t, seed, After(t, seed, ops))
    ensures GraphIs(t, seed, After(t, seed, ops), Selections(t, seed, ops))
  {
    SeedAligned(t, seed);
    if ops != [] {
      var before, last := ops[..|ops| - 1], ops[|ops| - 1];
      JoinsMatchBatchLayout(t, seed, before);
      var s := After(t, seed, before);
      if last.Start? && StartedNode(t, s, last.name, last.selection, last.launch).Ok? {
        StartKeepsGraph(t, seed, s, Selections(t, seed, before), last.name, last.selection, last.launch);
      }
    }
  }

  /** Prebuilt nodes listen on their configured ports; a node beyond the topology listens on the network port the
      machine handed out for it. */
  ghost predicate PortsAsHandedOut(t: Topology, seed: Seed, s: State, launches: seq<Launch>) {
    && |launches| == |s.nodes|
    && forall k :: 0 <= k < |s.nodes| ==>
         if seed.nodeCount + k < |t.swarms| then s.nodes[k].port == t.swarms[seed.nodeCount + k].port
         else launches[k].networkPort == Some(s.nodes[k].port)
  }

  /** After any sequence of starts and stops every running node listens on the port that was meant for it, so the layout
      of `JoinsMatchBatchLayout` is one over the ports the machine handed out. */
  lemma {:induction false} NodesListenWhereTheyShould(t: Topology, seed: Seed, ops: seq<Op>)
    requires StandardSeed(t, seed)
    ensures PortsAsHandedOut(t, seed, After(t, seed, ops), Launches(t, seed, ops))
  {
    if ops != [] {
      var before, last := ops[..|ops| - 1], ops[|ops| - 1];
      NodesListenWhereTheyShould(t, seed, before);
      JoinsMatchBatchLayout(t, seed, before);
      var s := After(t, seed, before);
      if last.Start? && StartedNode(t, s, last.name, last.selection, last.launch).Ok? {
        StartKeepsPorts(t, seed, s, Launches(t, seed, before), last.name, last.selection, last.launch);
      }
    }
  }

  lemma StartKeepsPorts(t: Topology, seed: Seed, s: State, launches: seq<Launch>,
                        name: string, selection: PeerSelection, launch: Launch)
    requires PortsAsHandedOut(t, seed, s, launches) && s.nodeCount == seed.nodeCount + |s.nodes|
    requires StartedNode(t, s, name, selection, launch).Ok?
    ensures PortsAsHandedOut(t, seed, Started(t, s, name, selection, launch), launches + [launch])
  {
    var node := StartedNode(t, s, name, selection, launch).value;
    assert if s.nodeCount < |t.swarms| then node.port == t.swarms[s.nodeCount].port
           else launch.networkPort == Some(node.port);
  }

  /** A cluster grown from nothing by default joins, with distinct ports: the readiness check expects exactly the
      degrees of the layout for the number of nodes running. */
  lemma ReadinessMatchesLayout(t: Topology, ops: seq<Op>, k: nat)
    requires var s := After(t, EMPTY_SEED, ops);
             && k < |s.nodes| && DistinctPorts(s.peerPorts)
             && forall c <- Selections(t, EMPTY_SEED, ops) :: c.DefaultLayout?
    ensures var nodes := After(t, EMPTY_SEED, ops).nodes;
            |Neighbours(ListenPorts(nodes), InitialPeerPorts(nodes), k)| == LayoutDegree(t.layout, |nodes|, k)
  {
    var s, selections := After(t, EMPTY_SEED, ops), Selections(t, EMPTY_SEED, ops);
    JoinsMatchBatchLayout(t, EMPTY_SEED, ops);
    DefaultGraphRows(t, s, selections);
    LayoutDegrees(t.layout, s.peerPorts, k);
  }

  lemma DefaultGraphRows(t: Topology, s: State, selections: seq<PeerSelection>)
    requires PortsAligned(t, EMPTY_SEED, s) && GraphIs(t, EMPTY_SEED, s, selections)
    requires forall c <- selections :: c.DefaultLayout?
    ensures ListenPorts(s.nodes) == s.peerPorts
    ensures InitialPeerPorts(s.nodes) == LayoutRows(t.layout, s.peerPorts)
  {
    forall i | 0 <= i < |s.nodes|
      ensures ListenPorts(s.nodes)[i] == s.peerPorts[i]
      ensures InitialPeerPorts(s.nodes)[i] == LayoutRows(t.layout, s.peerPorts)[i]
    {
      assert s.peerPorts[EMPTY_SEED.nodeCount + i] == s.nodes[i].port;
      assert selections[i] in selections;
      assert DialsAsSelected(t, s, EMPTY_SEED.nodeCount + i, selections[i], s.nodes[i].initialPeers);
    }
  }

  /** The guards of a start, collected: its label is free, its named peers exist, the process spawns and, past the
      prebuilt topology, the machine still has two free ports and the config builds. The first guard that fails, in
      the order label, ports, peers, config, process, gives the error. */
  lemma StartSucceedsIff(t: Topology, s: State, name: string, selection: PeerSelection, launch: Launch)
    ensures var fullName, r := LabelFor(name, s.nodeCount), StartedNode(t, s, name, selection, launch);
            var free := fullName !in s.peerPortsByName;
            var ports := s.nodeCount < |t.swarms| || (launch.networkPort.Some? && launch.blendPort.Some?);
            var peers := selection.Named? ==> Known(selection.names, s.peerPortsByName);
            var config := s.nodeCount < |t.swarms| || launch.configBuilds;
            && (Started(t, s, name, selection, launch) != s <==> free && ports && peers && config && launch.spawns)
            && (r == Err(NameTaken(fullName)) <==> !free)
            && (r == Err(NoFreePort) <==> free && !ports)
            && (r.Err? && r.error.UnknownPeer? <==> free && ports && !peers)
            && (r == Err(ConfigFailed) <==> free && ports && peers && !config)
            && (r == Err(SpawnFailed) <==> free && ports && peers && config && !launch.spawns)
  {
    if StartedNode(t, s, name, selection, launch).Ok? {
      assert Started(t, s, name, selection, launch).nodeCount == s.nodeCount + 1;
    }
  }

  /** A node explicitly named with the number of a later position blocks unnamed starts at that position: the first
      one fails, and so does every unnamed start after it. */
  lemma {:induction false} TakenNumberBlocksUnnamedStarts(t: Topology, seed: Seed, s: State, starts: seq<Op>)
    requires NodeLabel(s.nodeCount) in s.peerPortsByName
    requires forall op <- starts :: op.Start? && IsBlank(op.name)
    ensures Replay(t, seed, s, starts) == s
  {
    if starts != [] {
      var before, last := starts[..|starts| - 1], starts[|starts| - 1];
      TakenNumberBlocksUnnamedStarts(t, seed, s, before);
      assert last in starts;
    }
  }

  /** The blocked state is reached whenever a node is explicitly named with the number of the next position. */
  lemma NamingTheNextNumberBlocks(t: Topology, s: State, selection: PeerSelection, launch: Launch)
    requires StartedNode(t, s, Decimal(s.nodeCount + 1), selection, launch).Ok?
    ensures var s' := Started(t, s, Decimal(s.nodeCount + 1), selection, launch);
            NodeLabel(s'.nodeCount) in s'.peerPortsByName
  {
    DecimalDigits(s.nodeCount + 1);
    assert IsDigit(Decimal(s.nodeCount + 1)[0]) && !IsWhitespace(Decimal(s.nodeCount + 1)[0]);
  }

  /** For instance by naming the very first node "1": every unnamed start after that is refused. */
  lemma FirstNodeNamedOneBlocks(t: Topology, launch: Launch, starts: seq<Op>)
    requires t.swarms != [] && launch.spawns
    requires forall op <- starts :: op.Start? && IsBlank(op.name)
    ensures var s := After(t, EMPTY_SEED, [Start("1", DefaultLayout, launch)]);
            && s.nodeCount == 1 && NodeLabel(1) in s.peerPortsByName
            && Replay(t, EMPTY_SEED, s, starts) == s
  {
    var start := Start("1", DefaultLayout, launch);
    var s0 := Seeded(EMPTY_SEED);
    assert Decimal(s0.nodeCount + 1) == "1";
    NamingTheNextNumberBlocks(t, s0, DefaultLayout, launch);
    assert After(t, EMPTY_SEED, [start]) == Started(t, s0, "1", DefaultLayout, launch) by {
      assert [start][..0] == [];
    }
    TakenNumberBlocksUnnamedStarts(t, EMPTY_SEED, After(t, EMPTY_SEED, [start]), starts);
  }

  ghost function Replay(t: Topology, seed: Seed, s: State, ops: seq<Op>): State {
    if ops == [] then s else Apply(t, seed, Replay(t, seed, s, ops[..|ops| - 1]), ops[|ops| - 1])
  }

  /** If nodes are only ever started unnamed, their labels are the numbers of their positions and no start is ever
      refused for its name. */
  lemma {:induction false} UnnamedStartsNeverClash(t: Topology, seed: Seed, ops: seq<Op>)
    requires StandardSeed(t, seed)
    requires forall op <- ops :: op.Start? ==> IsBlank(op.name)
    ensures var s := After(t, seed, ops);
            Numbered(s) && NodeLabel(s.nodeCount) !in s.peerPortsByName
  {
    if ops == [] {
      NamedPortsAre(t, |t.swarms|);
    } else {
      var before, last := ops[..|ops| - 1], ops[|ops| - 1];
      UnnamedStartsNeverClash(t, seed, before);
      NamedPortsAre(t, |t.swarms|);
      assert last in ops;
      if last.Start? {
        StartStaysNumbered(t, After(t, seed, before), last.name, last.selection, last.launch);
      }
    }
    NumberedNamesMissNext(After(t, seed, ops));
  }

  ghost predicate Numbered(s: State) {
    forall name <- s.peerPortsByName :: exists i :: 0 <= i < s.nodeCount && name == NodeLabel(i)
  }

  lemma NumberedNamesMissNext(s: State)
    requires Numbered(s)
    ensures NodeLabel(s.nodeCount) !in s.peerPortsByName
  {
    if NodeLabel(s.nodeCount) in s.peerPortsByName {
      var i :| 0 <= i < s.nodeCount && NodeLabel(s.nodeCount) == NodeLabel(i);
      NodeLabelInjective(s.nodeCount, i);
    }
  }

  lemma StartStaysNumbered(t: Topology, s: State, name: string, selection: PeerSelection, launch: Launch)
    requires Numbered(s) && IsBlank(name)
    ensures Numbered(Started(t, s, name, selection, launch))
  {
    var s' := Started(t, s, name, selection, launch);
    forall known | known in s'.peerPortsByName
      ensures exists i :: 0 <= i < s'.nodeCount && known == NodeLabel(i)
    {
      if known in s.peerPortsByName {
        var i :| 0 <= i < s.nodeCount && known == NodeLabel(i);
        assert i < s'.nodeCount;
      } else {
        assert known == NodeLabel(s.nodeCount) && s.nodeCount < s'.nodeCount;
      }
    }
  }
}
