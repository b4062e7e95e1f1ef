/** Peer layouts: who dials whom when a whole cluster is configured at once, and when nodes join one at a time. */
module Layout {
  import opened Wrappers
  import opened Ledger
  import opened Addresses

  datatype Libp2pNetworkLayout = Star | Chain | Full

  datatype SwarmConfig = SwarmConfig(port: Port, nodeKey: Ed25519Key)

  function PeerIdOf(key: Ed25519Key): PeerId {
    PeerId(Ed25519PublicKey(key))
  }

  function NodeAddressWithPeer(swarm: SwarmConfig): Multiaddr {
    NodeAddressFromPort(swarm.port) + [P2p(PeerIdOf(swarm.nodeKey))]
  }

  /** The layout itself: the nodes that node `i` dials, in order. It does not depend on the cluster's size. */
  function Dialed(layout: Libp2pNetworkLayout, i: nat): (r: seq<nat>)
    ensures forall n :: 0 <= n < |r| ==> r[n] < i
    ensures i > 0 ==> r != []
  {
    match layout
    case Star => if i == 0 then [] else [0]
    case Chain => if i == 0 then [] else [i - 1]
    case Full => seq(i, k => k)
  }

  function Lookup<T>(items: seq<T>, indexes: seq<nat>): (r: seq<T>)
    requires forall n :: 0 <= n < |indexes| ==> indexes[n] < |items|
    ensures |r| == |indexes| && forall n :: 0 <= n < |r| ==> r[n] == items[indexes[n]]
  {
    seq(|indexes|, n requires 0 <= n < |indexes| => items[indexes[n]])
  }

  function SwarmAddresses(swarms: seq<SwarmConfig>): (r: seq<Multiaddr>)
    ensures |r| == |swarms| && forall n :: 0 <= n < |r| ==> r[n] == NodeAddressWithPeer(swarms[n])
  {
    seq(|swarms|, n requires 0 <= n < |swarms| => NodeAddressWithPeer(swarms[n]))
  }

  /** The n-th address leads to local node `indexes[n]`, and to nobody else. */
  ghost predicate ReachesNodes(peers: seq<Multiaddr>, swarms: seq<SwarmConfig>, indexes: seq<nat>)
    requires forall n :: 0 <= n < |indexes| ==> indexes[n] < |swarms|
  {
    && |peers| == |indexes|
    && forall n :: 0 <= n < |peers| ==>
         var node := swarms[indexes[n]]; Reaches(peers[n], LOCALHOST, node.port, Some(PeerIdOf(node.nodeKey)))
  }

  lemma BatchReaches(swarms: seq<SwarmConfig>, layout: Libp2pNetworkLayout)
    ensures forall i :: 0 <= i < |swarms| ==>
              ReachesNodes(Lookup(SwarmAddresses(swarms), Dialed(layout, i)), swarms, Dialed(layout, i))
  {
    forall n | 0 <= n < |swarms|
      ensures Reaches(NodeAddressWithPeer(swarms[n]), LOCALHOST, swarms[n].port, Some(PeerIdOf(swarms[n].nodeKey)))
    {
      var port, peer := swarms[n].port, PeerIdOf(swarms[n].nodeKey);
      QuicReaches(LOCALHOST, port, peer);
      assert NodeAddressWithPeer(swarms[n]) == [Ip4(LOCALHOST), Udp(port), QuicV1, P2p(peer)];
    }
  }

  /** Batch construction: every node's initial peers are the addresses of exactly the nodes its layout dials. */
  method InitialPeersByNetworkLayout(swarms: seq<SwarmConfig>, layout: Libp2pNetworkLayout)
    returns (all: seq<seq<Multiaddr>>)
    ensures |all| == |swarms|
    ensures forall i :: 0 <= i < |swarms| ==> all[i] == Lookup(SwarmAddresses(swarms), Dialed(layout, i))
    ensures forall i :: 0 <= i < |swarms| ==> ReachesNodes(all[i], swarms, Dialed(layout, i))
  {
    if swarms == [] {
      return [];
    }
    BatchReaches(swarms, layout);
    all := [];
    match layout {
      case Star =>
        all := all + [[]];
        var firstAddr := NodeAddressWithPeer(swarms[0]);
        for i := 1 to |swarms|
          invariant |all| == i
          invariant forall k :: 0 <= k < i ==> all[k] == Lookup(SwarmAddresses(swarms), Dialed(layout, k))
        {
          all := all + [[firstAddr]];
        }
      case Chain =>
        all := all + [[]];
        for i := 1 to |swarms|
          invariant |all| == i
          invariant forall k :: 0 <= k < i ==> all[k] == Lookup(SwarmAddresses(swarms), Dialed(layout, k))
        {
          var prevAddr := NodeAddressWithPeer(swarms[i - 1]);
          all := all + [[prevAddr]];
        }
      case Full =>
        for i := 0 to |swarms|
          invariant |all| == i
          invariant forall k :: 0 <= k < i ==> all[k] == Lookup(SwarmAddresses(swarms), Dialed(layout, k))
        {
          var peers := [];
          for k := 0 to i
            invariant |peers| == k
            invariant forall n :: 0 <= n < k ==> peers[n] == NodeAddressWithPeer(swarms[n])
          {
            peers := peers + [NodeAddressWithPeer(swarms[k])];
          }
          assert peers == Lookup(SwarmAddresses(swarms), Dialed(layout, i));
          all := all + [peers];
        }
    }
  }

  /** Incremental construction: the peers of a node that joins after the nodes listening on `peerPorts`. */
  function BuildInitialPeers(layout: Libp2pNetworkLayout, peerPorts: seq<Port>): seq<Multiaddr> {
    match layout
    case Star => if peerPorts == [] then [] else [NodeAddressFromPort(peerPorts[0])]
    case Chain => if peerPorts == [] then [] else [NodeAddressFromPort(peerPorts[|peerPorts| - 1])]
    case Full => seq(|peerPorts|, k requires 0 <= k < |peerPorts| => NodeAddressFromPort(peerPorts[k]))
  }

  /** Ports dialled by a peer list, in order. */
  function PeerPorts(peers: seq<Multiaddr>): seq<Port> {
    if peers == [] then []
    else (match MultiaddrPort(peers[0]) case None => [] case Some(port) => [port]) + PeerPorts(peers[1..])
  }

  lemma {:induction false} PeerPortsOf(peers: seq<Multiaddr>, ports: seq<Port>)
    requires |peers| == |ports|
    requires forall k :: 0 <= k < |peers| ==> MultiaddrPort(peers[k]) == Some(ports[k])
    ensures PeerPorts(peers) == ports
  {
    if peers != [] {
      assert MultiaddrPort(peers[0]) == Some(ports[0]);
      PeerPortsOf(peers[1..], ports[1..]);
      assert ports == [ports[0]] + ports[1..];
    }
  }

  lemma NodeAddressPorts(swarm: SwarmConfig)
    ensures MultiaddrPort(NodeAddressFromPort(swarm.port)) == Some(swarm.port)
    ensures MultiaddrPort(NodeAddressWithPeer(swarm)) == Some(swarm.port)
    ensures ExtractUdpPort(NodeAddressWithPeer(swarm)) == Some(swarm.port)
  {
    var plain, addr := NodeAddressFromPort(swarm.port), NodeAddressWithPeer(swarm);
    assert plain[1..][0] == Udp(swarm.port) && addr[1..][0] == Udp(swarm.port);
  }

  function Ports(swarms: seq<SwarmConfig>): (r: seq<Port>)
    ensures |r| == |swarms| && forall n :: 0 <= n < |r| ==> r[n] == swarms[n].port
  {
    seq(|swarms|, n requires 0 <= n < |swarms| => swarms[n].port)
  }

  /** The addresses of a join lead to the nodes the layout dials, whoever answers there. */
  lemma JoinReaches(layout: Libp2pNetworkLayout, ports: seq<Port>)
    ensures var peers := BuildInitialPeers(layout, ports);
            && |peers| == |Dialed(layout, |ports|)|
            && forall n :: 0 <= n < |peers| ==> Reaches(peers[n], LOCALHOST, ports[Dialed(layout, |ports|)[n]], None)
  {
    forall port: Port
      ensures Reaches(NodeAddressFromPort(port), LOCALHOST, port, None)
    {
      QuicReaches(LOCALHOST, port, PeerIdOf(Ed25519Key(seq(32, _ => 0))));
    }
  }

  /** The two constructions agree: what the batch gives node `i` and what a join after nodes 0..i-1 computes dial
      the same ports in the same order, whatever comes after. */
  lemma IncrementalMatchesBatch(layout: Libp2pNetworkLayout, swarms: seq<SwarmConfig>, ports: seq<Port>, i: nat)
    requires i <= |ports|
    ensures PeerPorts(BuildInitialPeers(layout, ports[..i])) == Lookup(ports, Dialed(layout, i))
    ensures i < |swarms| ==>
              PeerPorts(Lookup(SwarmAddresses(swarms), Dialed(layout, i))) == Lookup(Ports(swarms), Dialed(layout, i))
  {
    var peers, expected := BuildInitialPeers(layout, ports[..i]), Lookup(ports, Dialed(layout, i));
    forall k | 0 <= k < |peers|
      ensures MultiaddrPort(peers[k]) == Some(expected[k])
    {
      var swarm := SwarmConfig(expected[k], Ed25519Key(seq(32, _ => 0)));
      NodeAddressPorts(swarm);
    }
    PeerPortsOf(peers, expected);
    if i < |swarms| {
      forall k | 0 <= k < |Dialed(layout, i)|
        ensures MultiaddrPort(Lookup(SwarmAddresses(swarms), Dialed(layout, i))[k])
             == Some(Lookup(Ports(swarms), Dialed(layout, i))[k])
      {
        NodeAddressPorts(swarms[Dialed(layout, i)[k]]);
      }
      PeerPortsOf(Lookup(SwarmAddresses(swarms), Dialed(layout, i)), Lookup(Ports(swarms), Dialed(layout, i)));
    }
  }

  /** A path along dial links. */
  ghost predicate IsDialPath(layout: Libp2pNetworkLayout, path: seq<nat>) {
    && path != []
    && forall k, m :: 0 <= k && m == k + 1 < |path| ==> path[m] in Dialed(layout, path[k])
  }

  /** Every layout is connected: each node has a dial path to node 0. */
  lemma {:induction false} ConnectedToFirst(layout: Libp2pNetworkLayout, i: nat) returns (path: seq<nat>)
    ensures IsDialPath(layout, path) && path[0] == i && path[|path| - 1] == 0
  {
    if i == 0 {
      path := [0];
    } else {
      var rest := ConnectedToFirst(layout, Dialed(layout, i)[0]);
      path := [i] + rest;
    }
  }
}
