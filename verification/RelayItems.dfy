// The values every relay component shares: outcomes, IPv6 addresses and the
// relay item that a pool stores for each of its entries.
module RelayItems {

  datatype Option<+T> = None | Some(value: T)

  datatype Result<+T> = Success(value: T) | Failure(error: string)

  // An IPv6 address as its sixteen bytes, most significant first.
  type Address = a: seq<bv8> | |a| == 16 witness seq(16, _ => 0)

  // What the stored text of an item's address parses to. `Valid` stands for a
  // genuine IPv6 address (not an IPv4 address and not an IPv4-mapped one).
  datatype AddressText = NoAddress | BadAddress | Valid(addr: Address)

  const IPV4_ONLY := "ipv4_only"
  const IPV6_ONLY := "ipv6_only"
  const PREFER_IPV6 := "prefer_ipv6"

  datatype Mode = IPv6Mode | UpstreamMode | PairedMode | DualStackMode {
    predicate UsesIPv6() { !UpstreamMode? }
    predicate PairsUpstream() { PairedMode? || DualStackMode? }
  }

  datatype Upstream = Upstream(server: string, port: int, username: string, password: string)

  // `other` stands for the fields no operation of this model reads or writes
  // (database ids, listen port, client credentials, export line).
  datatype RelayItem = RelayItem(
    inboundTag: string,
    outboundTag: string,
    ipv6OutboundTag: string,
    ipv4OutboundTag: string,
    appleIDIPv4Only: bool,
    ipv6: AddressText,
    iface: string,
    prefix: int,
    addedByUs: bool,
    upstream: Upstream,
    other: string)
}
