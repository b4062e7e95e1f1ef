/** Multiaddresses and the port lookups made on them. */
module Addresses {
  import opened Wrappers
  import opened Ledger

  type Port = p: nat | p < 0x1_0000
  type Ipv4Addr = a: nat | a < 0x1_0000_0000

  const LOCALHOST: Ipv4Addr := 0x7F00_0001

  datatype PeerId = PeerId(key: Ed25519PublicKey)

  datatype Protocol = Ip4(ip: Ipv4Addr) | Udp(port: Port) | Tcp(port: Port) | QuicV1 | P2p(peer: PeerId)
  type Multiaddr = seq<Protocol>

  function NodeAddressFromPort(port: Port): Multiaddr {
    [Ip4(LOCALHOST), Udp(port), QuicV1]
  }

  /** First UDP port of the address. */
  function ExtractUdpPort(addr: Multiaddr): Option<Port> {
    if addr == [] then None
    else if addr[0].Udp? then Some(addr[0].port)
    else ExtractUdpPort(addr[1..])
  }

  /** First UDP or TCP port of the address. */
  function MultiaddrPort(addr: Multiaddr): Option<Port> {
    if addr == [] then None
    else if addr[0].Udp? || addr[0].Tcp? then Some(addr[0].port)
    else MultiaddrPort(addr[1..])
  }

  function Ipv4Of(addr: Multiaddr): Option<Ipv4Addr> {
    if addr == [] then None
    else if addr[0].Ip4? then Some(addr[0].ip)
    else Ipv4Of(addr[1..])
  }

  /** The peer that an address insists on meeting, if any. */
  function PeerOf(addr: Multiaddr): Option<PeerId> {
    if addr == [] then None
    else if addr[0].P2p? then Some(addr[0].peer)
    else PeerOf(addr[1..])
  }

  /** Dialling `addr` opens a QUIC connection to this machine and UDP port, and accepts this peer only (anybody, if
      there is none). */
  ghost predicate Reaches(addr: Multiaddr, ip: Ipv4Addr, port: Port, peer: Option<PeerId>) {
    Ipv4Of(addr) == Some(ip) && ExtractUdpPort(addr) == Some(port) && QuicV1 in addr && PeerOf(addr) == peer
  }

  lemma QuicReaches(ip: Ipv4Addr, port: Port, peer: PeerId)
    ensures Reaches([Ip4(ip), Udp(port), QuicV1], ip, port, None)
    ensures Reaches([Ip4(ip), Udp(port), QuicV1, P2p(peer)], ip, port, Some(peer))
  {
    var plain, full: Multiaddr := [Ip4(ip), Udp(port), QuicV1], [Ip4(ip), Udp(port), QuicV1, P2p(peer)];
    assert plain[1..] == [Udp(port), QuicV1] && plain[1..][1..] == [QuicV1] && plain[1..][1..][1..] == [];
    assert full[1..] == [Udp(port), QuicV1, P2p(peer)] && full[1..][1..] == [QuicV1, P2p(peer)];
    assert full[1..][1..][1..] == [P2p(peer)];
    assert PeerOf(plain) == PeerOf(plain[1..][1..]) == PeerOf([]) == None;
    assert PeerOf(full) == PeerOf(full[1..][1..]) == PeerOf([P2p(peer)]) == Some(peer);
  }

  /** Index of the first occurrence of `port`. */
  function Position(ports: seq<Port>, port: Port): (r: Option<nat>)
    ensures r.None? ==> port !in ports
    ensures r.Some? ==> r.value < |ports| && ports[r.value] == port
    ensures r.Some? ==> forall k :: 0 <= k < r.value ==> ports[k] != port
  {
    if ports == [] then None
    else if ports[0] == port then Some(0)
    else match Position(ports[1..], port)
         case None => None
         case Some(k) => Some(k + 1)
  }

  /** `k` is the first index holding its value. */
  ghost predicate FirstOccurrence<T>(s: seq<T>, k: nat) {
    k < |s| && s[k] !in s[..k]
  }

  lemma PositionIsFirst(ports: seq<Port>, k: nat)
    requires k < |ports|
    ensures Position(ports, ports[k]).Some? && Position(ports, ports[k]).value <= k
    ensures Position(ports, ports[k]) == Some(k) <==> FirstOccurrence(ports, k)
  {
    var first := Position(ports, ports[k]).value;
    assert first < k ==> ports[first] in ports[..k];
  }
}
