/** Nodes started one at a time in a local cluster: names, ports and initial peers. */
module LocalNodes {
  import opened Wrappers
  import opened Addresses
  import opened Layout
  import opened PeerCounts
  import opened Text

  datatype PeerSelection = DefaultLayout | NoPeers | Named(names: seq<string>)

  /** The prebuilt topology: node `i` was configured with port `swarms[i].port` and the layout's peers. */
  datatype Topology = Topology(layout: Libp2pNetworkLayout, swarms: seq<SwarmConfig>)

  function PrebuiltPeers(t: Topology, i: nat): seq<Multiaddr>
    requires i < |t.swarms|
  {
    Lookup(SwarmAddresses(t.swarms), Dialed(t.layout, i))
  }

  datatype Seed = Seed(nodeCount: nat, peerPorts: seq<Port>, peerPortsByName: map<string, Port>)

  const EMPTY_SEED := Seed(0, [], map[])

  /** The labels of the first `n` prebuilt nodes, with their ports. */
  function NamedPorts(t: Topology, n: nat): map<string, Port>
    requires n <= |t.swarms|
  {
    if n == 0 then map[] else NamedPorts(t, n - 1)[NodeLabel(n - 1) := t.swarms[n - 1].port]
  }

  function SeedFromTopology(t: Topology): Seed {
    Seed(|t.swarms|, Ports(t.swarms), NamedPorts(t, |t.swarms|))
  }

  datatype RunningNode = RunningNode(port: Port, initialPeers: seq<Multiaddr>)

  datatype State = State(
    nodeCount: nat, peerPorts: seq<Port>, peerPortsByName: map<string, Port>,
    clientsByName: map<string, RunningNode>, nodes: seq<RunningNode>)

  function Seeded(seed: Seed): State {
    State(seed.nodeCount, seed.peerPorts, seed.peerPortsByName, map[], [])
  }

  /** What the machine does when a node is started. */
  datatype Launch = Launch(networkPort: Option<Port>, blendPort: Option<Port>, configBuilds: bool, spawns: bool)

  datatype StartError =
    | NameTaken(taken: string)
    | UnknownPeer(name: string)
    | NoFreePort
    | ConfigFailed
    | SpawnFailed

  /** Unicode white space. */
  predicate IsWhitespace(c: char) {
    var n := c as int;
    9 <= n <= 13 || n == 0x20 || n == 0x85 || n == 0xA0 || n == 0x1680 || 0x2000 <= n <= 0x200A
    || n == 0x2028 || n == 0x2029 || n == 0x202F || n == 0x205F || n == 0x3000
  }

  predicate IsBlank(name: string) {
    forall c <- name :: IsWhitespace(c)
  }

  function LabelFor(name: string, index: nat): string {
    if IsBlank(name) then NodeLabel(index) else "node-" + name
  }

  // ----- initial peers -----

  ghost predicate Known(names: seq<string>, peerPortsByName: map<string, Port>) {
    forall n :: 0 <= n < |names| ==> names[n] in peerPortsByName
  }

  function NamedAddresses(names: seq<string>, peerPortsByName: map<string, Port>): seq<Multiaddr>
    requires Known(names, peerPortsByName)
  {
    seq(|names|, n requires 0 <= n < |names| => NodeAddressFromPort(peerPortsByName[names[n]]))
  }

  function FirstUnknown(names: seq<string>, peerPortsByName: map<string, Port>): (r: Option<string>)
    ensures r.None? <==> Known(names, peerPortsByName)
  {
    if names == [] then None
    else if names[0] !in peerPortsByName then Some(names[0])
    else
      assert names == [names[0]] + names[1..];
      FirstUnknown(names[1..], peerPortsByName)
  }

  lemma {:induction false} UnknownIsFirst(names: seq<string>, peerPortsByName: map<string, Port>) returns (n: nat)
    requires FirstUnknown(names, peerPortsByName).Some?
    ensures n < |names| && FirstUnknown(names, peerPortsByName) == Some(names[n])
    ensures names[n] !in peerPortsByName && Known(names[..n], peerPortsByName)
  {
    if names[0] !in peerPortsByName {
      n := 0;
    } else {
      var k := UnknownIsFirst(names[1..], peerPortsByName);
      n := k + 1;
      assert forall i :: 0 < i < n ==> names[..n][i] == names[1..][..k][i - 1];
    }
  }

  /** All names, or the first one that is not known. */
  method ResolvePeerNames(peerPortsByName: map<string, Port>, names: seq<string>)
    returns (r: Result<seq<Multiaddr>, StartError>)
    ensures match FirstUnknown(names, peerPortsByName)
            case Some(name) => r == Err(UnknownPeer(name))
            case None => r == Ok(NamedAddresses(names, peerPortsByName))
  {
    var peers := [];
    for i := 0 to |names|
      invariant FirstUnknown(names, peerPortsByName) == FirstUnknown(names[i..], peerPortsByName)
      invariant Known(names[..i], peerPortsByName)
      invariant peers == NamedAddresses(names[..i], peerPortsByName)
    {
      assert names[i..][1..] == names[i + 1..];
      if names[i] !in peerPortsByName {
        return Err(UnknownPeer(names[i]));
      }
      assert names[..i + 1] == names[..i] + [names[i]];
      peers := peers + [NodeAddressFromPort(peerPortsByName[names[i]])];
    }
    assert names[..|names|] == names;
    return Ok(peers);
  }

  function ResolvedPeers(t: Topology, s: State, selection: PeerSelection, defaultPeers: seq<Multiaddr>)
    : Result<seq<Multiaddr>, StartError>
  {
    match selection
    case Named(names) =>
      (match FirstUnknown(names, s.peerPortsByName)
       case Some(name) => Err(UnknownPeer(name))
       case None => Ok(NamedAddresses(names, s.peerPortsByName)))
    case DefaultLayout =>
      if defaultPeers != [] then Ok(defaultPeers) else Ok(BuildInitialPeers(t.layout, s.peerPorts))
    case NoPeers => Ok([])
  }

  // ----- one start -----

  /** Port and peers of the node to be started: from the prebuilt topology while it lasts, else made up. */
  function NodeFor(t: Topology, s: State, selection: PeerSelection, launch: Launch): Result<RunningNode, StartError> {
    if s.nodeCount < |t.swarms| then
      match ResolvedPeers(t, s, selection, PrebuiltPeers(t, s.nodeCount))
      case Err(e) => Err(e)
      case Ok(peers) => Ok(RunningNode(t.swarms[s.nodeCount].port, peers))
    else if launch.networkPort.None? || launch.blendPort.None? then Err(NoFreePort)
    else
      match ResolvedPeers(t, s, selection, [])
      case Err(e) => Err(e)
      case Ok(peers) =>
        if launch.configBuilds then Ok(RunningNode(launch.networkPort.value, peers)) else Err(ConfigFailed)
  }

  function StartedNode(t: Topology, s: State, name: string, selection: PeerSelection, launch: Launch)
    : Result<RunningNode, StartError>
  {
    if LabelFor(name, s.nodeCount) in s.peerPortsByName then Err(NameTaken(LabelFor(name, s.nodeCount)))
    else
      match NodeFor(t, s, selection, launch)
      case Err(e) => Err(e)
      case Ok(node) => if launch.spawns then Ok(node) else Err(SpawnFailed)
  }

  function Registered(s: State, name: string, node: RunningNode): State {
    State(s.nodeCount + 1, s.peerPorts + [node.port], s.peerPortsByName[name := node.port],
          s.clientsByName[name := node], s.nodes + [node])
  }

  /** State after a start: unchanged when it fails. */
  function Started(t: Topology, s: State, name: string, selection: PeerSelection, launch: Launch): State {
    match StartedNode(t, s, name, selection, launch)
    case Err(_) => s
    case Ok(node) => Registered(s, LabelFor(name, s.nodeCount), node)
  }

  // ----- the mutable cluster -----

  class LocalDynamicState {
    var nodeCount: nat
    var peerPorts: seq<Port>
    var peerPortsByName: map<string, Port>
    var clientsByName: map<string, RunningNode>
    var nodes: seq<RunningNode>

    constructor (seed: Seed)
      ensures View() == Seeded(seed)
    {
      nodeCount, peerPorts, peerPortsByName := seed.nodeCount, seed.peerPorts, seed.peerPortsByName;
      clientsByName, nodes := map[], [];
    }

    function View(): State
      reads this
    {
      State(nodeCount, peerPorts, peerPortsByName, clientsByName, nodes)
    }

    method RegisterNode(name: string, node: RunningNode)
      modifies this
      ensures View() == Registered(old(View()), name, node)
    {
      peerPorts := peerPorts + [node.port];
      peerPortsByName := peerPortsByName[name := node.port];
      clientsByName := clientsByName[name := node];
      nodeCount := nodeCount + 1;
      nodes := nodes + [node];
    }
  }

  /** The client list that workloads and expectations share; it may hold clients of nodes started elsewhere. */
  class NodeClients {
    var clients: seq<RunningNode>

    constructor (clients: seq<RunningNode>)
      ensures this.clients == clients
    {
      this.clients := clients;
    }

    method AddNode(client: RunningNode)
      modifies this
      ensures clients == old(clients) + [client]
    {
      clients := clients + [client];
    }

    method Clear()
      modifies this
      ensures clients == []
    {
      clients := [];
    }
  }

  class LocalDynamicNodes {
    const descriptors: Topology
    const nodeClients: NodeClients
    const seed: Seed
    const state: LocalDynamicState

    constructor (descriptors: Topology, nodeClients: NodeClients, seed: Seed)
      requires descriptors.swarms != []
      ensures this.descriptors == descriptors && this.nodeClients == nodeClients && this.seed == seed
      ensures fresh(state) && state.View() == Seeded(seed)
    {
      this.descriptors := descriptors;
      this.nodeClients := nodeClients;
      this.seed := seed;
      state := new LocalDynamicState(seed);
    }

    /** Back to the seed, except that the clients of the seed's nodes leave the shared list with all others. */
    method StopAll()
      modifies state, nodeClients
      ensures state.View() == Seeded(seed) && nodeClients.clients == []
    {
      state.nodes := [];
      state.peerPorts := seed.peerPorts;
      state.peerPortsByName := seed.peerPortsByName;
      state.clientsByName := map[];
      state.nodeCount := seed.nodeCount;
      nodeClients.Clear();
    }

    method StartNode(name: string, selection: PeerSelection, launch: Launch)
      returns (r: Result<RunningNode, StartError>)
      modifies state, nodeClients
      ensures nodeClients.clients == old(nodeClients.clients) + if r.Ok? then [r.value] else []
      ensures r == StartedNode(descriptors, old(state.View()), name, selection, launch)
      ensures state.View() == Started(descriptors, old(state.View()), name, selection, launch)
    {
      var index := state.nodeCount;
      var name' := if IsBlank(name) then NodeLabel(index) else "node-" + name;
      if name' in state.peerPortsByName {
        return Err(NameTaken(name'));
      }
      var node := BuildConfig(index, selection, launch);
      if node.Err? {
        return node;
      }
      if !launch.spawns {
        return Err(SpawnFailed);
      }
      nodeClients.AddNode(node.value);
      state.RegisterNode(name', node.value);
      return node;
    }

    method BuildConfig(index: nat, selection: PeerSelection, launch: Launch)
      returns (r: Result<RunningNode, StartError>)
      requires index == state.nodeCount
      ensures r == NodeFor(descriptors, state.View(), selection, launch)
      ensures r.Ok? ==> if index < |descriptors.swarms| then r.value.port == descriptors.swarms[index].port
                        else launch.networkPort == Some(r.value.port)
    {
      if index < |descriptors.swarms| {
        var initialPeers := ResolveInitialPeers(selection, PrebuiltPeers(descriptors, index));
        if initialPeers.Err? {
          return Err(initialPeers.error);
        }
        return Ok(RunningNode(descriptors.swarms[index].port, initialPeers.value));
      }
      if launch.networkPort.None? || launch.blendPort.None? {
        return Err(NoFreePort);
      }
      var initialPeers := ResolveInitialPeers(selection, []);
      if initialPeers.Err? {
        return Err(initialPeers.error);
      }
      if !launch.configBuilds {
        return Err(ConfigFailed);
      }
      return Ok(RunningNode(launch.networkPort.value, initialPeers.value));
    }

    method ResolveInitialPeers(selection: PeerSelection, defaultPeers: seq<Multiaddr>)
      returns (r: Result<seq<Multiaddr>, StartError>)
      ensures r == ResolvedPeers(descriptors, state.View(), selection, defaultPeers)
    {
      match selection {
        case Named(names) => r := ResolvePeerNames(state.peerPortsByName, names);
        case DefaultLayout =>
          r := Ok(if defaultPeers != [] then defaultPeers else BuildInitialPeers(descriptors.layout, state.peerPorts));
        case NoPeers => r := Ok([]);
      }
    }

    /** Expected peer count of every running node, in start order. */
    method ReadinessNodes() returns (expected: seq<nat>)
      ensures |expected| == |state.nodes|
      ensures forall k :: 0 <= k < |expected| ==>
                expected[k] == |Neighbours(ListenPorts(state.nodes), InitialPeerPorts(state.nodes), k)|
    {
      expected := FindExpectedPeerCounts(ListenPorts(state.nodes), InitialPeerPorts(state.nodes));
    }
  }

  function ListenPorts(nodes: seq<RunningNode>): (r: seq<Port>)
    ensures |r| == |nodes|
  {
    seq(|nodes|, k requires 0 <= k < |nodes| => nodes[k].port)
  }

  function InitialPeerPorts(nodes: seq<RunningNode>): (r: seq<set<Port>>)
    ensures |r| == |nodes|
  {
    seq(|nodes|, k requires 0 <= k < |nodes| => set p | p in PeerPorts(nodes[k].initialPeers))
  }
}
