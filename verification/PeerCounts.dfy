/** The readiness oracle: how many peers each node is expected to see. */
module PeerCounts {
  import opened Wrappers
  import opened Addresses
  import opened Layout

  /** A node that knows `ports` dials node `j`. A port denotes the first node listening on it. */
  ghost predicate Dials(listenPorts: seq<Port>, ports: set<Port>, j: nat) {
    j < |listenPorts| && listenPorts[j] in ports && FirstOccurrence(listenPorts, j)
  }

  /** Neighbours of `i` in the symmetric, loop-free closure of the dial relation. */
  ghost function Neighbours(listenPorts: seq<Port>, rows: seq<set<Port>>, i: nat): set<nat>
    requires i < |rows|
  {
    set j: nat | 0 <= j < |rows| && j != i && (Dials(listenPorts, rows[i], j) || Dials(listenPorts, rows[j], i))
  }

  /** The expected counts are the degrees of that graph. The iteration order of the port sets is arbitrary. */
  method FindExpectedPeerCounts(listenPorts: seq<Port>, initialPeerPorts: seq<set<Port>>) returns (counts: seq<nat>)
    requires |listenPorts| <= |initialPeerPorts|
    ensures |counts| == |initialPeerPorts|
    ensures forall i :: 0 <= i < |counts| ==> counts[i] == |Neighbours(listenPorts, initialPeerPorts, i)|
  {
    var n := |initialPeerPorts|;
    var expected: seq<set<nat>> := seq(n, _ => {});
    ghost var rows: seq<set<Port>> := seq(n, _ => {});
    for idx := 0 to n
      invariant |expected| == |rows| == n
      invariant forall i :: 0 <= i < n ==> rows[i] == if i < idx then initialPeerPorts[i] else {}
      invariant forall i :: 0 <= i < n ==> expected[i] == Neighbours(listenPorts, rows, i)
    {
      var todo := initialPeerPorts[idx];
      while todo != {}
        invariant todo <= initialPeerPorts[idx]
        invariant |expected| == |rows| == n
        invariant rows[idx] == initialPeerPorts[idx] - todo
        invariant forall i :: 0 <= i < n && i != idx ==> rows[i] == if i < idx then initialPeerPorts[i] else {}
        invariant forall i :: 0 <= i < n ==> expected[i] == Neighbours(listenPorts, rows, i)
        decreases todo
      {
        var port :| port in todo;
        todo := todo - {port};
        var peerIdx := Position(listenPorts, port);
        AddPort(listenPorts, rows, idx, port);
        rows := rows[idx := rows[idx] + {port}];
        if peerIdx.None? || peerIdx.value == idx {
          continue;
        }
        expected := expected[idx := expected[idx] + {peerIdx.value}];
        expected := expected[peerIdx.value := expected[peerIdx.value] + {idx}];
      }
      assert rows[idx] == initialPeerPorts[idx];
    }
    assert rows == initialPeerPorts;
    counts := seq(n, i requires 0 <= i < n => |expected[i]|);
  }

  /** Learning one more port adds at most one edge, in both directions. */
  lemma AddPort(listenPorts: seq<Port>, rows: seq<set<Port>>, idx: nat, port: Port)
    requires |listenPorts| <= |rows| && idx < |rows|
    ensures
      var grown, peer := rows[idx := rows[idx] + {port}], Position(listenPorts, port);
      forall i :: 0 <= i < |rows| ==>
        Neighbours(listenPorts, grown, i) ==
        Neighbours(listenPorts, rows, i) +
        if peer.None? || peer.value == idx then {}
        else if i == idx then {peer.value}
        else if i == peer.value then {idx}
        else {}
  {
    var grown, peer := rows[idx := rows[idx] + {port}], Position(listenPorts, port);
    forall j | 0 <= j < |listenPorts|
      ensures Dials(listenPorts, grown[idx], j) <==> Dials(listenPorts, rows[idx], j) || peer == Some(j)
    {
      PositionIsFirst(listenPorts, j);
    }
  }

  // ----- handshake -----

  ghost function Sum(s: seq<nat>): nat {
    if s == [] then 0 else Sum(s[..|s| - 1]) + s[|s| - 1]
  }

  /** Unordered edges, written with the smaller end first. */
  ghost function Edges(listenPorts: seq<Port>, rows: seq<set<Port>>): set<(nat, nat)> {
    set i: nat, j: nat | 0 <= i < |rows| && 0 <= j < |rows| && i < j && j in Neighbours(listenPorts, rows, i) :: (i, j)
  }

  /** Ordered pairs of neighbours whose first component is below `k`. */
  ghost function Arcs(listenPorts: seq<Port>, rows: seq<set<Port>>, k: nat): set<(nat, nat)>
    requires k <= |rows|
  {
    set i: nat, j: nat | 0 <= i < k && 0 <= j < |rows| && j in Neighbours(listenPorts, rows, i) :: (i, j)
  }

  lemma {:induction false} ImageSize<T(!new), U(!new)>(s: set<T>, f: T -> U, image: set<U>)
    requires forall x, y :: f(x) == f(y) ==> x == y
    requires forall y :: y in image <==> exists x <- s :: f(x) == y
    ensures |image| == |s|
    decreases s
  {
    if s == {} {
      assert image == {};
    } else {
      var x :| x in s;
      assert f(x) in image;
      ImageSize(s - {x}, f, image - {f(x)});
    }
  }

  /** Arcs leaving `i` for the given neighbours. */
  ghost function Fan(i: nat, others: set<nat>): set<(nat, nat)> {
    set j | j in others :: (i, j)
  }

  lemma ArcsSplit(listenPorts: seq<Port>, rows: seq<set<Port>>, k: nat)
    requires k < |rows|
    ensures Arcs(listenPorts, rows, k + 1) == Arcs(listenPorts, rows, k) + Fan(k, Neighbours(listenPorts, rows, k))
    ensures Arcs(listenPorts, rows, k) !! Fan(k, Neighbours(listenPorts, rows, k))
  {
  }

  lemma {:induction false} ArcsSize(listenPorts: seq<Port>, rows: seq<set<Port>>, counts: seq<nat>, k: nat)
    requires k <= |rows| == |counts|
    requires forall i :: 0 <= i < |counts| ==> counts[i] == |Neighbours(listenPorts, rows, i)|
    ensures |Arcs(listenPorts, rows, k)| == Sum(counts[..k])
  {
    if k == 0 {
      assert Arcs(listenPorts, rows, 0) == {};
    } else {
      var others := Neighbours(listenPorts, rows, k - 1);
      ArcsSize(listenPorts, rows, counts, k - 1);
      ImageSize(others, (j: nat) => (k - 1, j), Fan(k - 1, others));
      ArcsSplit(listenPorts, rows, k - 1);
      assert counts[..k][..k - 1] == counts[..k - 1];
    }
  }

  /** The expected counts add up to twice the number of undirected edges. */
  lemma Handshake(listenPorts: seq<Port>, rows: seq<set<Port>>, counts: seq<nat>)
    requires |rows| == |counts|
    requires forall i :: 0 <= i < |counts| ==> counts[i] == |Neighbours(listenPorts, rows, i)|
    ensures Sum(counts) == 2 * |Edges(listenPorts, rows)|
  {
    var up := Edges(listenPorts, rows);
    var down: set<(nat, nat)> := set e | e in up :: (e.1, e.0);
    ArcsSize(listenPorts, rows, counts, |rows|);
    assert counts[..|rows|] == counts;
    ImageSize(up, (e: (nat, nat)) => (e.1, e.0), down);
    ArcsAreEdgesBothWays(listenPorts, rows, down);
  }

  lemma ArcsAreEdgesBothWays(listenPorts: seq<Port>, rows: seq<set<Port>>, down: set<(nat, nat)>)
    requires forall i: nat, j: nat :: (i, j) in down <==> (j, i) in Edges(listenPorts, rows)
    ensures Arcs(listenPorts, rows, |rows|) == Edges(listenPorts, rows) + down
    ensures Edges(listenPorts, rows) !! down
  {
    forall e: (nat, nat)
      ensures e in Arcs(listenPorts, rows, |rows|) <==> e in Edges(listenPorts, rows) + down
    {
      assert e == (e.0, e.1);
    }
  }

  // ----- the standard layouts -----

  ghost predicate DistinctPorts(ports: seq<Port>) {
    forall i, j :: 0 <= i < j < |ports| ==> ports[i] != ports[j]
  }

  /** What each node of a laid-out cluster knows: the ports of the nodes it dials. */
  ghost function LayoutRows(layout: Libp2pNetworkLayout, ports: seq<Port>): (r: seq<set<Port>>)
    ensures |r| == |ports|
  {
    seq(|ports|, i requires 0 <= i < |ports| => set p | p in Lookup(ports, Dialed(layout, i)))
  }

  lemma LayoutDials(layout: Libp2pNetworkLayout, ports: seq<Port>, i: nat, j: nat)
    requires DistinctPorts(ports) && i < |ports| && j < |ports|
    ensures Dials(ports, LayoutRows(layout, ports)[i], j) <==> j in Dialed(layout, i)
  {
    var dialed := Lookup(ports, Dialed(layout, i));
    assert ports[j] in LayoutRows(layout, ports)[i] <==> ports[j] in dialed;
    if j in Dialed(layout, i) {
      var k :| 0 <= k < |Dialed(layout, i)| && Dialed(layout, i)[k] == j;
      assert dialed[k] == ports[j];
    }
  }

  ghost predicate Between(a: nat, k: nat, b: nat) {
    a <= k < b
  }

  ghost function Range(a: nat, b: nat): set<nat> {
    set k: nat | k < b && Between(a, k, b)
  }

  lemma {:induction false} RangeSize(a: nat, b: nat)
    requires a <= b
    ensures |Range(a, b)| == b - a
    decreases b
  {
    if a == b {
      assert Range(a, b) == {};
    } else {
      RangeSize(a, b - 1);
      assert Range(a, b) == Range(a, b - 1) + {b - 1};
    }
  }

  /** Neighbours of node `i` in an `n`-node cluster. */
  ghost function LayoutNeighbours(layout: Libp2pNetworkLayout, n: nat, i: nat): set<nat> {
    match layout
    case Star => if i == 0 then Range(1, n) else {0}
    case Chain => Range(if i == 0 then 0 else i - 1, if i + 1 < n then i + 2 else n) - {i}
    case Full => Range(0, n) - {i}
  }

  /** Expected peer count of node `i` in an `n`-node cluster. */
  function LayoutDegree(layout: Libp2pNetworkLayout, n: nat, i: nat): nat
    requires i < n
  {
    match layout
    case Star => if i == 0 then n - 1 else 1
    case Chain => (if i == 0 then 0 else 1) + (if i + 1 == n then 0 else 1)
    case Full => n - 1
  }

  ghost predicate Linked(layout: Libp2pNetworkLayout, i: nat, j: nat) {
    j != i && (j in Dialed(layout, i) || i in Dialed(layout, j))
  }

  lemma NeighboursAreLinked(layout: Libp2pNetworkLayout, ports: seq<Port>, i: nat)
    requires DistinctPorts(ports) && i < |ports|
    ensures Neighbours(ports, LayoutRows(layout, ports), i) == set j: nat | j < |ports| && Linked(layout, i, j)
  {
    forall j | 0 <= j < |ports|
      ensures j in Neighbours(ports, LayoutRows(layout, ports), i) <==> Linked(layout, i, j)
    {
      LayoutDials(layout, ports, i, j);
      LayoutDials(layout, ports, j, i);
    }
  }

  lemma LayoutNeighboursAreLinked(layout: Libp2pNetworkLayout, n: nat, i: nat)
    requires i < n
    ensures LayoutNeighbours(layout, n, i) == set j: nat | j < n && Linked(layout, i, j)
  {
    forall j: nat | j < n
      ensures j in LayoutNeighbours(layout, n, i) <==> Linked(layout, i, j)
    {
      if layout.Full? {
        assert j < i ==> Dialed(layout, i)[j] == j;
        assert i < j ==> Dialed(layout, j)[i] == i;
      }
    }
  }

  /** With distinct listen ports the oracle expects n-1, 1, ..., 1 in a star, 1, 2, ..., 2, 1 in a chain (0 when the
      chain is a single node), and n-1 everywhere in a full mesh. */
  lemma LayoutDegrees(layout: Libp2pNetworkLayout, ports: seq<Port>, i: nat)
    requires DistinctPorts(ports) && i < |ports|
    ensures |Neighbours(ports, LayoutRows(layout, ports), i)| == LayoutDegree(layout, |ports|, i)
  {
    var n := |ports|;
    NeighboursAreLinked(layout, ports, i);
    LayoutNeighboursAreLinked(layout, n, i);
    match layout {
      case Star => RangeSize(1, n);
      case Chain => RangeSize(if i == 0 then 0 else i - 1, if i + 1 < n then i + 2 else n);
      case Full => RangeSize(0, n);
    }
  }
}
