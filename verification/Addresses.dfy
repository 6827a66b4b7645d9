/** IP addresses and the ranges that are never banned (crates/ghostport-firewall/src/detector.rs). */
module Addresses {
  import opened Common

  datatype IpAddr =
    | V4(a: Byte, b: Byte, c: Byte, d: Byte)
    | V6(segments: seq<bv16>)

  /** A version 6 address has eight segments. */
  predicate IsIp(ip: IpAddr)
  {
    ip.V6? ==> |ip.segments| == 8
  }

  predicate IsLoopback(ip: IpAddr)
  {
    match ip
    case V4(a, _, _, _) => a == 127
    case V6(segments) => segments == [0, 0, 0, 0, 0, 0, 0, 1]
  }

  predicate IsPrivate(ip: IpAddr)
    requires ip.V4?
  {
    ip.a == 10 || (ip.a == 172 && 16 <= ip.b <= 31) || (ip.a == 192 && ip.b == 168)
  }

  predicate IsLinkLocal(ip: IpAddr)
    requires ip.V4?
  {
    ip.a == 169 && ip.b == 254
  }

  predicate IsNeverBannable(ip: IpAddr)
    requires IsIp(ip)
  {
    match ip
    case V4(_, _, _, _) => IsLoopback(ip) || IsPrivate(ip) || IsLinkLocal(ip)
    case V6(segments) => IsLoopback(ip) || (segments[0] & 0xfe00) == 0xfc00
  }

  // ----- The same ranges as prefixes -----

  /** The 32 bits of a version 4 address, read as a number. */
  function Number4(ip: IpAddr): nat
    requires ip.V4?
  {
    ((ip.a * 256 + ip.b) * 256 + ip.c) * 256 + ip.d
  }

  /** `ip` lies in the aligned block of `size` addresses that `network` is in. */
  predicate InBlock4(ip: IpAddr, network: IpAddr, size: nat)
    requires ip.V4? && network.V4? && size > 0
  {
    Number4(ip) / size == Number4(network) / size
  }

  const SLASH_8: nat := 0x100_0000
  const SLASH_12: nat := 0x10_0000
  const SLASH_16: nat := 0x1_0000

  lemma BlockNumbers(ip: IpAddr)
    requires ip.V4?
    ensures Number4(ip) / SLASH_8 == ip.a
    ensures Number4(ip) / SLASH_12 == ip.a * 16 + ip.b / 16
    ensures Number4(ip) / SLASH_16 == ip.a * 256 + ip.b
  {
  }

  /** Protected addresses are the loopback, RFC 1918 and link-local blocks, and for version 6 ::1 and fc00::/7. */
  lemma NeverBannableIffInProtectedBlock(ip: IpAddr)
    requires IsIp(ip)
    ensures ip.V4? ==>
              (IsNeverBannable(ip) <==>
                 || InBlock4(ip, V4(127, 0, 0, 0), SLASH_8)
                 || InBlock4(ip, V4(10, 0, 0, 0), SLASH_8)
                 || InBlock4(ip, V4(172, 16, 0, 0), SLASH_12)
                 || InBlock4(ip, V4(192, 168, 0, 0), SLASH_16)
                 || InBlock4(ip, V4(169, 254, 0, 0), SLASH_16))
    ensures ip.V6? ==>
              (IsNeverBannable(ip) <==>
                 ip.segments == [0, 0, 0, 0, 0, 0, 0, 1] || 0xfc00 <= ip.segments[0] <= 0xfdff)
  {
    if ip.V6? {
      UlaRange(ip.segments[0]);
    } else {
      BlockNumbers(ip);
    }
  }

  lemma UlaRange(s: bv16)
    ensures (s & 0xfe00) == 0xfc00 <==> 0xfc00 <= s <= 0xfdff
  {
  }
}
