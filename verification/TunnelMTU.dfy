/** The ceiling wireguard.go hands to the path-MTU search: what is left of the wire MTU after
    WireGuard's encapsulation. */
module TunnelMTU {

  const MAX_INTERNET_WIRE_MTU := 1500
  const MIN_TUNNEL_MTU := 1280
  const FALLBACK_MTU := 1420

  datatype Outer = IPv4 | IPv6

  function Overhead(outer: Outer): int {
    match outer case IPv4 => 60 case IPv6 => 80
  }

  function ComputeTunnelMTU(wireMTU: int, overhead: int): int {
    var wire := if wireMTU > MAX_INTERNET_WIRE_MTU then MAX_INTERNET_WIRE_MTU else wireMTU;
    if wire - overhead < MIN_TUNNEL_MTU then MIN_TUNNEL_MTU else wire - overhead
  }

  /** What discovery ends with: a wire MTU, or nothing. */
  datatype Discovery = Wire(mtu: int) | Failed

  function Ceiling(d: Discovery, outer: Outer): int {
    match d
    case Wire(mtu) => ComputeTunnelMTU(mtu, Overhead(outer))
    case Failed => FALLBACK_MTU
  }

  /** The largest outer packet the discovered path is known, or taken, to carry. */
  function PathLimit(d: Discovery, outer: Outer): int {
    match d
    case Wire(mtu) => if mtu < MAX_INTERNET_WIRE_MTU then mtu else MAX_INTERNET_WIRE_MTU
    case Failed => FALLBACK_MTU + Overhead(outer)
  }

  /** Above the IPv6 floor the ceiling lets through exactly what fits the path once wrapped, sixty or
      eighty bytes longer. */
  lemma CeilingExactly(d: Discovery, outer: Outer, mtu: int)
    requires mtu > MIN_TUNNEL_MTU
    ensures mtu <= Ceiling(d, outer) <==>
      match d
      case Wire(wire) => mtu + (if outer == IPv4 then 60 else 80) <= wire && mtu + (if outer == IPv4 then 60 else 80) <= 1500
      case Failed => mtu <= 1420
  {
  }

  /** A tunnel MTU within the ceiling either is no more than the IPv6 floor or, once wrapped, fits
      the path, which never exceeds 1500 bytes. */
  lemma WithinCeilingFits(d: Discovery, outer: Outer, mtu: int)
    requires mtu <= Ceiling(d, outer)
    ensures mtu <= MIN_TUNNEL_MTU || mtu + Overhead(outer) <= PathLimit(d, outer)
    ensures PathLimit(d, outer) <= MAX_INTERNET_WIRE_MTU
  {
  }
}
