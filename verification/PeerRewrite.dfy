/** Rewriting a layout's peer addresses, built on throw-away local ports, to the addresses hosts announced. */
module PeerRewrite {
  import opened Wrappers
  import opened Addresses
  import opened Layout
  import opened Hosts

  datatype PeerRewriteError =
    | HostPeerLenMismatch(hosts: nat, peerIds: nat)
    | HostIndexOutOfBounds(peerIdx: nat, hostsLen: nat)
    | PeerIdIndexOutOfBounds(peerIdx: nat, peerIdsLen: nat)

  function FindMatchingHost(addr: Multiaddr, originalPorts: seq<Port>): Option<nat> {
    match ExtractUdpPort(addr) case None => None case Some(port) => Position(originalPorts, port)
  }

  function HostAddress(host: Host, peer: PeerId): Multiaddr {
    [Ip4(host.ip), Udp(host.networkPort), QuicV1, P2p(peer)]
  }

  /** The nodes a template's addresses denote, in order, without the node itself and without unknown addresses. */
  function Targets(peers: seq<Multiaddr>, originalPorts: seq<Port>, nodeIdx: nat): seq<nat> {
    if peers == [] then []
    else
      Targets(peers[..|peers| - 1], originalPorts, nodeIdx) +
      match FindMatchingHost(peers[|peers| - 1], originalPorts)
      case None => []
      case Some(peerIdx) => if peerIdx == nodeIdx then [] else [peerIdx]
  }

  ghost predicate InRange(targets: seq<nat>, bound: nat) {
    forall n :: 0 <= n < |targets| ==> targets[n] < bound
  }

  function HostAddresses(hosts: seq<Host>, peerIds: seq<PeerId>): seq<Multiaddr>
    requires |hosts| == |peerIds|
  {
    seq(|hosts|, k requires 0 <= k < |hosts| => HostAddress(hosts[k], peerIds[k]))
  }

  /** The n-th address leads to where host `targets[n]` listens, and to the peer with that host's id only. */
  ghost predicate ReachesHosts(peers: seq<Multiaddr>, hosts: seq<Host>, peerIds: seq<PeerId>, targets: seq<nat>)
    requires |hosts| == |peerIds| && InRange(targets, |hosts|)
  {
    && |peers| == |targets|
    && forall n :: 0 <= n < |peers| ==>
         var host := hosts[targets[n]]; Reaches(peers[n], host.ip, host.networkPort, Some(peerIds[targets[n]]))
  }

  lemma HostAddressesReach(hosts: seq<Host>, peerIds: seq<PeerId>, targets: seq<nat>)
    requires |hosts| == |peerIds| && InRange(targets, |hosts|)
    ensures ReachesHosts(Lookup(HostAddresses(hosts, peerIds), targets), hosts, peerIds, targets)
  {
    forall k | 0 <= k < |hosts|
      ensures Reaches(HostAddresses(hosts, peerIds)[k], hosts[k].ip, hosts[k].networkPort, Some(peerIds[k]))
    {
      QuicReaches(hosts[k].ip, hosts[k].networkPort, peerIds[k]);
    }
  }

  /** Succeeds exactly when there are as many hosts as peer ids and every denoted node has a host; then each node's
      peers are the announced addresses of exactly the nodes its template denotes, in order. */
  method RewriteInitialPeers(
      templates: seq<seq<Multiaddr>>, originalPorts: seq<Port>, hosts: seq<Host>, peerIds: seq<PeerId>)
    returns (r: Result<seq<seq<Multiaddr>>, PeerRewriteError>)
    ensures r.Ok? <==>
            && |hosts| == |peerIds|
            && forall i :: 0 <= i < |templates| ==> InRange(Targets(templates[i], originalPorts, i), |hosts|)
    ensures r.Err? ==>
              if |hosts| != |peerIds| then r.error == HostPeerLenMismatch(|hosts|, |peerIds|)
              else r.error.HostIndexOutOfBounds? && r.error.peerIdx >= r.error.hostsLen == |hosts|
    ensures r.Ok? ==> |r.value| == |templates| && forall i :: 0 <= i < |templates| ==>
                        && r.value[i] == Lookup(HostAddresses(hosts, peerIds), Targets(templates[i], originalPorts, i))
                        && ReachesHosts(r.value[i], hosts, peerIds, Targets(templates[i], originalPorts, i))
  {
    if |hosts| != |peerIds| {
      return Err(HostPeerLenMismatch(|hosts|, |peerIds|));
    }
    var rewritten := [];
    for nodeIdx := 0 to |templates|
      invariant |rewritten| == nodeIdx
      invariant forall i :: 0 <= i < nodeIdx ==>
                  && InRange(Targets(templates[i], originalPorts, i), |hosts|)
                  && rewritten[i] == Lookup(HostAddresses(hosts, peerIds), Targets(templates[i], originalPorts, i))
                  && ReachesHosts(rewritten[i], hosts, peerIds, Targets(templates[i], originalPorts, i))
    {
      var nodePeers := RewriteNode(templates[nodeIdx], originalPorts, nodeIdx, hosts, peerIds);
      if nodePeers.Err? {
        return Err(nodePeers.error);
      }
      rewritten := rewritten + [nodePeers.value];
    }
    return Ok(rewritten);
  }

  /** The inner loop, for one node. */
  method RewriteNode(
      peers: seq<Multiaddr>, originalPorts: seq<Port>, nodeIdx: nat, hosts: seq<Host>, peerIds: seq<PeerId>)
    returns (r: Result<seq<Multiaddr>, PeerRewriteError>)
    requires |hosts| == |peerIds|
    ensures r.Ok? <==> InRange(Targets(peers, originalPorts, nodeIdx), |hosts|)
    ensures r.Ok? ==>
              && r.value == Lookup(HostAddresses(hosts, peerIds), Targets(peers, originalPorts, nodeIdx))
              && ReachesHosts(r.value, hosts, peerIds, Targets(peers, originalPorts, nodeIdx))
    ensures r.Err? ==> r.error.HostIndexOutOfBounds? && r.error.peerIdx >= r.error.hostsLen == |hosts|
  {
    var nodePeers := [];
    for k := 0 to |peers|
      invariant InRange(Targets(peers[..k], originalPorts, nodeIdx), |hosts|)
      invariant nodePeers == Lookup(HostAddresses(hosts, peerIds), Targets(peers[..k], originalPorts, nodeIdx))
    {
      assert peers[..k + 1][..k] == peers[..k];
      var peerIdx := FindMatchingHost(peers[k], originalPorts);
      if peerIdx.None? {
        continue;
      }
      if peerIdx.value == nodeIdx {
        continue;
      }
      if peerIdx.value >= |hosts| {
        ghost var targets := Targets(peers[..k + 1], originalPorts, nodeIdx);
        assert targets[|targets| - 1] == peerIdx.value;
        TargetsPrefix(peers, originalPorts, nodeIdx, k + 1);
        return Err(HostIndexOutOfBounds(peerIdx.value, |hosts|));
      }
      nodePeers := nodePeers + [HostAddress(hosts[peerIdx.value], peerIds[peerIdx.value])];
    }
    assert peers[..|peers|] == peers;
    HostAddressesReach(hosts, peerIds, Targets(peers, originalPorts, nodeIdx));
    return Ok(nodePeers);
  }

  lemma {:induction false} TargetsPrefix(peers: seq<Multiaddr>, originalPorts: seq<Port>, nodeIdx: nat, k: nat)
    requires k <= |peers|
    ensures Targets(peers[..k], originalPorts, nodeIdx) <= Targets(peers, originalPorts, nodeIdx)
  {
    if k == |peers| {
      assert peers[..k] == peers;
    } else {
      TargetsPrefix(peers[..|peers| - 1], originalPorts, nodeIdx, k);
      assert peers[..|peers| - 1][..k] == peers[..k];
    }
  }

  /** `addr` carries the original port of another node than `nodeIdx`, the first to have that port. */
  ghost predicate Denotes(addr: Multiaddr, originalPorts: seq<Port>, nodeIdx: nat, target: nat) {
    && target != nodeIdx && FirstOccurrence(originalPorts, target)
    && ExtractUdpPort(addr) == Some(originalPorts[target])
  }

  lemma MatchIsFirst(addr: Multiaddr, originalPorts: seq<Port>, target: nat)
    ensures FindMatchingHost(addr, originalPorts) == Some(target) <==>
            FirstOccurrence(originalPorts, target) && ExtractUdpPort(addr) == Some(originalPorts[target])
  {
    if target < |originalPorts| {
      PositionIsFirst(originalPorts, target);
    }
  }

  /** The targets of a template are exactly the nodes that its addresses denote. */
  lemma {:induction false} TargetsAre(peers: seq<Multiaddr>, originalPorts: seq<Port>, nodeIdx: nat, target: nat)
    ensures target in Targets(peers, originalPorts, nodeIdx) <==>
            exists addr <- peers :: Denotes(addr, originalPorts, nodeIdx, target)
  {
    if peers != [] {
      var init, last := peers[..|peers| - 1], peers[|peers| - 1];
      TargetsAre(init, originalPorts, nodeIdx, target);
      MatchIsFirst(last, originalPorts, target);
      assert peers == init + [last];
      assert target in Targets(peers, originalPorts, nodeIdx) <==>
             || target in Targets(init, originalPorts, nodeIdx)
             || Denotes(last, originalPorts, nodeIdx, target);
    }
  }

  // ----- layout templates -----

  /** What the batch layout gives node `i`. */
  function Template(layout: Libp2pNetworkLayout, swarms: seq<SwarmConfig>, i: nat): seq<Multiaddr>
    requires i < |swarms|
  {
    Lookup(SwarmAddresses(swarms), Dialed(layout, i))
  }

  function FirstWithSamePort(ports: seq<Port>, j: nat): (r: nat)
    requires j < |ports|
    ensures r <= j && ports[r] == ports[j] && FirstOccurrence(ports, r)
    ensures r == j <==> FirstOccurrence(ports, j)
  {
    PositionIsFirst(ports, j);
    PositionIsFirst(ports, Position(ports, ports[j]).value);
    Position(ports, ports[j]).value
  }

  function FirstsWithSamePort(ports: seq<Port>, indexes: seq<nat>): (r: seq<nat>)
    requires forall n :: 0 <= n < |indexes| ==> indexes[n] < |ports|
  {
    seq(|indexes|, n requires 0 <= n < |indexes| => FirstWithSamePort(ports, indexes[n]))
  }

  lemma {:induction false} TargetsOf(swarms: seq<SwarmConfig>, indexes: seq<nat>, nodeIdx: nat)
    requires forall n :: 0 <= n < |indexes| ==> indexes[n] < nodeIdx
    requires nodeIdx <= |swarms|
    ensures Targets(Lookup(SwarmAddresses(swarms), indexes), Ports(swarms), nodeIdx)
         == FirstsWithSamePort(Ports(swarms), indexes)
  {
    if indexes != [] {
      var init, last := indexes[..|indexes| - 1], indexes[|indexes| - 1];
      var peers, ports := Lookup(SwarmAddresses(swarms), indexes), Ports(swarms);
      TargetsOf(swarms, init, nodeIdx);
      assert peers[..|peers| - 1] == Lookup(SwarmAddresses(swarms), init);
      assert FindMatchingHost(peers[|peers| - 1], ports) == Some(FirstWithSamePort(ports, last)) by {
        NodeAddressPorts(swarms[last]);
        PositionIsFirst(ports, last);
      }
      FirstsSnoc(ports, init, last);
      assert indexes == init + [last];
    }
  }

  lemma FirstsSnoc(ports: seq<Port>, init: seq<nat>, last: nat)
    requires last < |ports| && forall n :: 0 <= n < |init| ==> init[n] < |ports|
    ensures FirstsWithSamePort(ports, init + [last])
         == FirstsWithSamePort(ports, init) + [FirstWithSamePort(ports, last)]
  {
  }

  /** For a layout's templates nothing is dropped, nobody dials itself and no index is out of range, whatever ports
      were allocated: the rewritten peers are the first nodes sharing a port with the nodes the layout dials. */
  lemma LayoutTargets(layout: Libp2pNetworkLayout, swarms: seq<SwarmConfig>, i: nat)
    requires i < |swarms|
    ensures var targets := Targets(Template(layout, swarms, i), Ports(swarms), i);
            && targets == FirstsWithSamePort(Ports(swarms), Dialed(layout, i))
            && |targets| == |Dialed(layout, i)| && InRange(targets, i)
  {
    TargetsOf(swarms, Dialed(layout, i), i);
  }

  /** The rewritten graph is the layout's graph: node `i`'s k-th peer is the host of its k-th template peer. */
  ghost predicate RewriteExact(layout: Libp2pNetworkLayout, swarms: seq<SwarmConfig>) {
    forall i :: 0 <= i < |swarms| ==> Targets(Template(layout, swarms, i), Ports(swarms), i) == Dialed(layout, i)
  }

  ghost predicate AllButLastDistinct(ports: seq<Port>) {
    forall i, j :: 0 <= i < j < |ports| - 1 ==> ports[i] != ports[j]
  }

  lemma FirstsFixed(ports: seq<Port>, indexes: seq<nat>)
    requires forall n :: 0 <= n < |indexes| ==> indexes[n] < |ports|
    ensures FirstsWithSamePort(ports, indexes) == indexes <==>
            forall n :: 0 <= n < |indexes| ==> FirstOccurrence(ports, indexes[n])
  {
    var firsts := FirstsWithSamePort(ports, indexes);
    assert forall n :: 0 <= n < |indexes| ==> firsts[n] == FirstWithSamePort(ports, indexes[n]);
  }

  /** A star is always rewritten exactly; a chain or a full mesh exactly when the original ports of all nodes that
      somebody dials, that is all but the last, are distinct. */
  lemma RewriteExactIff(layout: Libp2pNetworkLayout, swarms: seq<SwarmConfig>)
    ensures RewriteExact(layout, swarms) <==> layout.Star? || AllButLastDistinct(Ports(swarms))
  {
    var ports := Ports(swarms);
    forall i | 0 <= i < |swarms|
      ensures Targets(Template(layout, swarms, i), ports, i) == Dialed(layout, i) <==>
              forall n :: 0 <= n < |Dialed(layout, i)| ==> FirstOccurrence(ports, Dialed(layout, i)[n])
    {
      LayoutTargets(layout, swarms, i);
      FirstsFixed(ports, Dialed(layout, i));
    }
    if !layout.Star? && RewriteExact(layout, swarms) {
      forall i, j | 0 <= i < j < |ports| - 1
        ensures ports[i] != ports[j]
      {
        var n := if layout.Full? then j else 0;
        assert Dialed(layout, j + 1)[n] == j;
        assert ports[i] in ports[..j];
      }
    }
    if !layout.Star? && AllButLastDistinct(ports) {
      assert forall j :: 0 <= j < |ports| - 1 ==> FirstOccurrence(ports, j);
    }
  }
}
