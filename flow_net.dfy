/**
 * Network value types of the flow offload library: big-endian scalars,
 * MAC addresses, the tagged IP-address and tunnel unions, and the protocol
 * constants.
 *
 * A big-endian scalar is modelled by the number its wire bytes spell, most
 * significant byte first; its wire form is that byte sequence. A C tagged
 * union is modelled twice: as a Dafny datatype whose constructor is the tag,
 * and as the raw C layout (a tag and the shared storage), with decoding and
 * encoding between the two.
 */
module FlowNet {
  import opened Wrappers

  type Byte = x: nat | x < 0x100

  function Pow256(n: nat): (r: nat)
    ensures r >= 1
  {
    if n == 0 then 1 else 0x100 * Pow256(n - 1)
  }

  /** doca_be16_t, doca_be32_t and doca_be64_t: 2, 4 and 8 bytes in network order. */
  type Be16 = x: nat | x < 0x1_0000
  type Be32 = x: nat | x < 0x1_0000_0000
  type Be64 = x: nat | x < 0x1_0000_0000_0000_0000

  const EtherAddrLen: nat := 6
  const ProtoTcp: Byte := 6
  const ProtoUdp: Byte := 17
  const ProtoGre: Byte := 47
  const GtpuPort: Be16 := 2152
  const VxlanDefaultPort: Be16 := 4789

  /** A MAC address is exactly DOCA_ETHER_ADDR_LEN bytes. */
  type MacAddr = s: seq<Byte> | |s| == EtherAddrLen witness [0, 0, 0, 0, 0, 0]

  // ---------------------------------------------------------------------
  // Network byte order

  lemma DivBelowPow256(v: nat, width: nat)
    requires width > 0 && v < Pow256(width)
    ensures v / 0x100 < Pow256(width - 1)
  {
  }

  /** The `width` wire bytes of `v`, most significant first. */
  function ToBigEndian(v: nat, width: nat): (s: seq<Byte>)
    requires v < Pow256(width)
    ensures |s| == width
  {
    if width == 0 then []
    else
      DivBelowPow256(v, width);
      ToBigEndian(v / 0x100, width - 1) + [v % 0x100]
  }

  /** The number that wire bytes spell, the first byte most significant. */
  function FromBigEndian(s: seq<Byte>): (v: nat)
    ensures v < Pow256(|s|)
  {
    if s == [] then 0 else FromBigEndian(s[..|s| - 1]) * 0x100 + s[|s| - 1]
  }

  lemma {:induction false} BigEndianRoundTrip(v: nat, width: nat)
    requires v < Pow256(width)
    ensures FromBigEndian(ToBigEndian(v, width)) == v
  {
    if width > 0 {
      DivBelowPow256(v, width);
      var init := ToBigEndian(v / 0x100, width - 1);
      var s := ToBigEndian(v, width);
      assert s == init + [v % 0x100];
      assert s[..|s| - 1] == init && s[|s| - 1] == v % 0x100;
      BigEndianRoundTrip(v / 0x100, width - 1);
      assert FromBigEndian(s) == FromBigEndian(init) * 0x100 + v % 0x100;
      assert v == (v / 0x100) * 0x100 + v % 0x100;
    }
  }

  lemma {:induction false} BigEndianBytesRoundTrip(s: seq<Byte>)
    ensures ToBigEndian(FromBigEndian(s), |s|) == s
  {
    if s != [] {
      var init, last := s[..|s| - 1], s[|s| - 1];
      BigEndianBytesRoundTrip(init);
      var v := FromBigEndian(s);
      assert v / 0x100 == FromBigEndian(init) && v % 0x100 == last;
      assert s == init + [last];
    }
  }

  lemma Pow256Widths()
    ensures Pow256(2) == 0x1_0000 && Pow256(3) == 0x100_0000
    ensures Pow256(4) == 0x1_0000_0000 && Pow256(8) == 0x1_0000_0000_0000_0000
  {
  }

  lemma Be16RoundTrip(v: Be16)
    ensures Pow256(2) == 0x1_0000 && FromBigEndian(ToBigEndian(v, 2)) == v
  {
    Pow256Widths();
    BigEndianRoundTrip(v, 2);
  }

  lemma Be32RoundTrip(v: Be32)
    ensures Pow256(4) == 0x1_0000_0000 && FromBigEndian(ToBigEndian(v, 4)) == v
  {
    Pow256Widths();
    BigEndianRoundTrip(v, 4);
  }

  lemma Be64RoundTrip(v: Be64)
    ensures Pow256(8) == 0x1_0000_0000_0000_0000 && FromBigEndian(ToBigEndian(v, 8)) == v
  {
    Pow256Widths();
    BigEndianRoundTrip(v, 8);
  }

  /** The IPv4 address 10.0.0.1 travels as the bytes 10, 0, 0, 1. */
  lemma Ipv4WireExample()
    ensures Pow256(4) == 0x1_0000_0000 && ToBigEndian(0x0A00_0001, 4) == [10, 0, 0, 1]
  {
    Pow256Widths();
  }

  // ---------------------------------------------------------------------
  // struct doca_flow_ip_addr

  const IpAddrNone: Byte := 0
  const Ip4Addr: Byte := 4
  const Ip6Addr: Byte := 6

  type Ipv6Words = s: seq<Be32> | |s| == 4 witness [0, 0, 0, 0]

  datatype IpAddr = AddrNone | Ipv4(addr: Be32) | Ipv6(words: Ipv6Words)

  /** The C layout: the type byte and the union storage, whose first word is also `ipv4_addr`. */
  datatype RawIpAddr = RawIpAddr(ipType: Byte, storage: Ipv6Words)

  function IpType(a: IpAddr): (t: Byte)
    ensures t == IpAddrNone || t == Ip4Addr || t == Ip6Addr
    ensures t == IpAddrNone <==> a.AddrNone?
    ensures t == Ip4Addr <==> a.Ipv4?
    ensures t == Ip6Addr <==> a.Ipv6?
  {
    match a
    case AddrNone => IpAddrNone
    case Ipv4(_) => Ip4Addr
    case Ipv6(_) => Ip6Addr
  }

  /** How many leading storage words the tag makes meaningful. */
  function IpWords(ipType: Byte): nat
  {
    if ipType == Ip4Addr then 1 else if ipType == Ip6Addr then 4 else 0
  }

  /** Store an address in the C layout; storage the active arm does not use is zero. */
  function EncodeIp(a: IpAddr): RawIpAddr
  {
    match a
    case AddrNone => RawIpAddr(IpAddrNone, [0, 0, 0, 0])
    case Ipv4(v) => RawIpAddr(Ip4Addr, [v, 0, 0, 0])
    case Ipv6(w) => RawIpAddr(Ip6Addr, w)
  }

  /** Read the C layout: the tag selects the arm; any other tag value is not an address. */
  function DecodeIp(r: RawIpAddr): (a: Option<IpAddr>)
    ensures a.Some? <==> r.ipType in {IpAddrNone, Ip4Addr, Ip6Addr}
    ensures a.Some? ==> IpType(a.value) == r.ipType
  {
    if r.ipType == IpAddrNone then Some(AddrNone)
    else if r.ipType == Ip4Addr then Some(Ipv4(r.storage[0]))
    else if r.ipType == Ip6Addr then Some(Ipv6(r.storage))
    else None
  }

  lemma IpRoundTrip(a: IpAddr)
    ensures DecodeIp(EncodeIp(a)) == Some(a)
    ensures EncodeIp(a).ipType == IpType(a)
  {
  }

  /** Only the arm the tag selects matters: storage beyond it does not change the decoded address. */
  lemma DecodeIpReadsOnlyTaggedArm(r1: RawIpAddr, r2: RawIpAddr)
    requires r1.ipType == r2.ipType
    requires r1.storage[..IpWords(r1.ipType)] == r2.storage[..IpWords(r2.ipType)]
    ensures DecodeIp(r1) == DecodeIp(r2)
  {
    if r1.ipType == Ip4Addr {
      assert r1.storage[0] == r1.storage[..1][0];
    } else if r1.ipType == Ip6Addr {
      assert r1.storage == r1.storage[..4];
      assert r2.storage == r2.storage[..4];
    }
  }

  /** Encoding a decoded layout restores its tag and its meaningful words. */
  lemma EncodeDecodedIp(r: RawIpAddr)
    requires DecodeIp(r).Some?
    ensures EncodeIp(DecodeIp(r).value).ipType == r.ipType
    ensures EncodeIp(DecodeIp(r).value).storage[..IpWords(r.ipType)] == r.storage[..IpWords(r.ipType)]
  {
  }

  // ---------------------------------------------------------------------
  // struct doca_flow_tun

  const TunNone: nat := 0
  const TunVxlan: nat := 1
  const TunGtpu: nat := 2
  const TunGre: nat := 3

  datatype Tunnel = NoTunnel | Vxlan(tunId: Be32) | Gtpu(teid: Be32) | Gre(key: Be32)

  /** The C layout: the tunnel type and the one 32-bit word all three arms share. */
  datatype RawTun = RawTun(tunType: nat, key: Be32)

  function TunType(t: Tunnel): (code: nat)
    ensures code <= TunGre
    ensures code == TunNone <==> t.NoTunnel?
    ensures code == TunVxlan <==> t.Vxlan?
    ensures code == TunGtpu <==> t.Gtpu?
    ensures code == TunGre <==> t.Gre?
  {
    match t
    case NoTunnel => TunNone
    case Vxlan(_) => TunVxlan
    case Gtpu(_) => TunGtpu
    case Gre(_) => TunGre
  }

  /** The key a tunnel carries: vxlan_tun_id, gtp_teid or gre_key; none for no tunnel. */
  function TunKey(t: Tunnel): Option<Be32>
  {
    match t
    case NoTunnel => None
    case Vxlan(id) => Some(id)
    case Gtpu(teid) => Some(teid)
    case Gre(key) => Some(key)
  }

  function EncodeTun(t: Tunnel): (r: RawTun)
    ensures r.tunType == TunType(t)
    ensures TunKey(t).Some? ==> r.key == TunKey(t).value
  {
    match t
    case NoTunnel => RawTun(TunNone, 0)
    case Vxlan(id) => RawTun(TunVxlan, id)
    case Gtpu(teid) => RawTun(TunGtpu, teid)
    case Gre(key) => RawTun(TunGre, key)
  }

  function DecodeTun(r: RawTun): (t: Option<Tunnel>)
    ensures t.Some? <==> r.tunType <= TunGre
    ensures t.Some? ==> TunType(t.value) == r.tunType
    ensures t.Some? && r.tunType != TunNone ==> TunKey(t.value) == Some(r.key)
  {
    if r.tunType == TunNone then Some(NoTunnel)
    else if r.tunType == TunVxlan then Some(Vxlan(r.key))
    else if r.tunType == TunGtpu then Some(Gtpu(r.key))
    else if r.tunType == TunGre then Some(Gre(r.key))
    else None
  }

  lemma TunRoundTrip(t: Tunnel)
    ensures DecodeTun(EncodeTun(t)) == Some(t)
  {
  }

  // ---------------------------------------------------------------------
  // VXLAN: vni (24 bits) followed by 8 reserved bits

  /** The VNI: the first three wire bytes of the tunnel id. */
  function VxlanVni(tunId: Be32): (vni: nat)
    ensures vni < 0x100_0000
    ensures vni == tunId / 0x100
  {
    Pow256Widths();
    var s := ToBigEndian(tunId, 4);
    BigEndianRoundTrip(tunId, 4);
    assert s == s[..3] + [s[3]];
    FromBigEndian(s[..3])
  }

  /** The reserved byte: the last wire byte of the tunnel id. */
  function VxlanReserved(tunId: Be32): (b: Byte)
    ensures b == tunId % 0x100
  {
    Pow256Widths();
    var s := ToBigEndian(tunId, 4);
    BigEndianRoundTrip(tunId, 4);
    assert s == s[..3] + [s[3]];
    s[3]
  }

  /** The tunnel id whose wire bytes are the VNI's three bytes followed by the reserved byte. */
  function VxlanTunId(vni: nat, reserved: Byte): (tunId: Be32)
    requires vni < 0x100_0000
  {
    Pow256Widths();
    FromBigEndian(ToBigEndian(vni, 3) + [reserved])
  }

  lemma VxlanFieldsRoundTrip(vni: nat, reserved: Byte)
    requires vni < 0x100_0000
    ensures VxlanVni(VxlanTunId(vni, reserved)) == vni
    ensures VxlanReserved(VxlanTunId(vni, reserved)) == reserved
  {
    Pow256Widths();
    var s := ToBigEndian(vni, 3) + [reserved];
    assert s[..|s| - 1] == ToBigEndian(vni, 3);
    BigEndianRoundTrip(vni, 3);
  }

  lemma VxlanTunIdRoundTrip(tunId: Be32)
    ensures VxlanTunId(VxlanVni(tunId), VxlanReserved(tunId)) == tunId
  {
    Pow256Widths();
    var vni := VxlanVni(tunId);
    var s := ToBigEndian(vni, 3) + [VxlanReserved(tunId)];
    assert s[..|s| - 1] == ToBigEndian(vni, 3);
    BigEndianRoundTrip(vni, 3);
  }
}
