/** Value types shared by the packet, API and dashboard models. */
module Common {

  /** Rust's `Option`. */
  datatype Option<T> = None | Some(value: T)

  /** Unsigned machine integers of the widths the source uses. */
  type U8 = x: int | 0 <= x < 0x100
  type U16 = x: int | 0 <= x < 0x1_0000
  type U64 = x: int | 0 <= x < 0x1_0000_0000_0000_0000

  /** An IP address; the octets are kept as they are, their count is not constrained. */
  datatype IpAddr = V4(v4: seq<U8>) | V6(v6: seq<U8>)

  /** A node's public key, as raw bytes. */
  datatype PublicKey = PublicKey(bytes: seq<U8>)

  /** An address prefix: an address and a prefix length. */
  datatype Subnet = Subnet(address: IpAddr, prefixLen: U8)
}
