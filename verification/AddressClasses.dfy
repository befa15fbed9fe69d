/** The address classes as networks: what `classify` decides octet by octet is
    membership in a list of blocks, the first block deciding. */
module AddressClasses {
  import opened Prelude
  import opened Address

  function Block4(a: Byte, b: Byte, c: Byte, d: Byte, prefix: nat): (n: Network) {
    Network(V4([a, b, c, d]), prefix)
  }

  function Block6(a: Byte, b: Byte, c: Byte, d: Byte, y: Byte, z: Byte, prefix: nat): (n: Network) {
    Network(V6([a, b, c, d] + ZERO10 + [y, z]), prefix)
  }

  const BLOCKS: nat := 15
  const UNSPECIFIED_V4: nat := 0
  const UNSPECIFIED_V6: nat := 9

  /** The blocks in the order in which they decide. */
  function Block(i: nat): (n: Network)
    requires i < BLOCKS
  {
    match i
    case 0 => Block4(0, 0, 0, 0, 32)
    case 1 => Block4(169, 254, 169, 254, 32)
    case 2 => Block4(100, 100, 100, 200, 32)
    case 3 => Block4(127, 0, 0, 0, 8)
    case 4 => Block4(169, 254, 0, 0, 16)
    case 5 => Block4(224, 0, 0, 0, 4)
    case 6 => Block4(10, 0, 0, 0, 8)
    case 7 => Block4(172, 16, 0, 0, 12)
    case 8 => Block4(192, 168, 0, 0, 16)
    case 9 => Block6(0, 0, 0, 0, 0, 0, 128)
    case 10 => Block6(0xFD, 0, 0x0E, 0xC2, 0x02, 0x54, 128)
    case 11 => Block6(0, 0, 0, 0, 0, 1, 128)
    case 12 => Block6(0xFE, 0x80, 0, 0, 0, 0, 10)
    case 13 => Block6(0xFF, 0, 0, 0, 0, 0, 8)
    case _ => Block6(0xFC, 0, 0, 0, 0, 0, 7)
  }

  function BlockClass(i: nat): (c: AddressClass)
    requires i < BLOCKS
  {
    match i
    case 0 | 9 => Unspecified
    case 1 | 2 | 10 => CloudMetadata
    case 3 | 11 => Loopback
    case 4 | 12 => LinkLocal
    case 5 | 13 => Multicast
    case 6 | 7 | 8 => PrivateRfc1918
    case _ => UniqueLocalIpv6
  }

  predicate Holds(i: nat, ip: IpAddr) {
    i < BLOCKS && Contains(Block(i), ip)
  }

  /** This block holds the address and no earlier one does. */
  ghost predicate DecidedBy(ip: IpAddr, i: nat) {
    Holds(i, ip) && forall j: nat | j < i :: !Holds(j, ip)
  }

  /** No block holds the address. */
  ghost predicate Unlisted(ip: IpAddr) {
    forall i: nat :: !Holds(i, ip)
  }

  // ---- Blocks, octet by octet ----------------------------------------------

  const SHIFTS: seq<nat> := [256, 128, 64, 32, 16, 8, 4, 2, 1]

  predicate SameTop(a: Byte, b: Byte, r: nat)
    requires r <= 8
  {
    a / SHIFTS[r] == b / SHIFTS[r]
  }

  function ByteBit(b: Byte, j: nat): (bit: nat)
    requires j < 8
  {
    (b / SHIFTS[j + 1]) % 2
  }

  lemma BitOfByte(o: seq<Byte>, k: nat)
    requires k < 8 * |o|
    ensures Bit(o, k) == ByteBit(o[k / 8], k % 8)
  {
  }

  /** One more leading bit. */
  lemma NextBit(a: Byte, b: Byte, r: nat)
    requires r < 8
    ensures SameTop(a, b, r + 1) <==> SameTop(a, b, r) && ByteBit(a, r) == ByteBit(b, r)
  {
    Halves(a, r);
    Halves(b, r);
  }

  lemma Halves(a: Byte, r: nat)
    requires r < 8
    ensures a / SHIFTS[r] == a / SHIFTS[r + 1] / 2
  {
  }

  lemma {:induction false} LeadingBits(a: Byte, b: Byte, r: nat)
    requires r <= 8
    ensures SameTop(a, b, r) <==> forall j: nat | j < r :: ByteBit(a, j) == ByteBit(b, j)
  {
    if r > 0 {
      LeadingBits(a, b, r - 1);
      NextBit(a, b, r - 1);
      hide SameTop, ByteBit;
    }
  }

  /** A block of `8 * n + r` bits fixes `n` octets and the top `r` bits of the next. */
  lemma BlockHolds(net: Network, ip: IpAddr, n: nat, r: nat)
    requires net.prefix == 8 * n + r && r < 8 && net.base.V4? == ip.V4?
    requires if r == 0 then n <= |ip.Octets()| else n < |ip.Octets()|
    ensures var a, b := net.base.Octets(), ip.Octets();
            Contains(net, ip) <==> a[..n] == b[..n] && (r > 0 ==> SameTop(a[n], b[n], r))
  {
    var a, b := net.base.Octets(), ip.Octets();
    hide SameTop, ByteBit, Bit;
    if Contains(net, ip) {
      forall i | 0 <= i < n ensures a[i] == b[i] {
        forall j: nat | j < 8 ensures ByteBit(a[i], j) == ByteBit(b[i], j) {
          Located(a, b, i, j);
        }
        LeadingBits(a[i], b[i], 8);
        Whole(a[i], b[i]);
      }
      if r > 0 {
        forall j: nat | j < r ensures ByteBit(a[n], j) == ByteBit(b[n], j) {
          Located(a, b, n, j);
        }
        LeadingBits(a[n], b[n], r);
      }
    }
    if a[..n] == b[..n] && (r > 0 ==> SameTop(a[n], b[n], r)) {
      forall k: nat | k < net.prefix ensures Bit(a, k) == Bit(b, k) {
        BitOfByte(a, k);
        BitOfByte(b, k);
        if k / 8 < n {
          assert a[..n][k / 8] == b[..n][k / 8];
        } else {
          LeadingBits(a[n], b[n], r);
        }
      }
    }
  }

  lemma Located(a: seq<Byte>, b: seq<Byte>, i: nat, j: nat)
    requires |a| == |b| && i < |a| && j < 8
    ensures var k := 8 * i + j;
            Bit(a, k) == ByteBit(a[i], j) && Bit(b, k) == ByteBit(b[i], j)
  {
    var k := 8 * i + j;
    assert k / 8 == i && k % 8 == j;
    BitOfByte(a, k);
    BitOfByte(b, k);
  }

  lemma Whole(a: Byte, b: Byte)
    ensures SameTop(a, b, 8) <==> a == b
  {
  }

  // ---- Which addresses the blocks hold -------------------------------------

  lemma WholeBlock4(o: Octets4, a: Byte, b: Byte, c: Byte, d: Byte)
    ensures Contains(Block4(a, b, c, d, 32), V4(o)) <==> o == [a, b, c, d]
  {
    BlockHolds(Block4(a, b, c, d, 32), V4(o), 4, 0);
    assert o[..4] == o && [a, b, c, d][..4] == [a, b, c, d];
  }

  lemma FirstOctet4(o: Octets4, a: Byte)
    ensures Contains(Block4(a, 0, 0, 0, 8), V4(o)) <==> o[0] == a
  {
    BlockHolds(Block4(a, 0, 0, 0, 8), V4(o), 1, 0);
    assert o[..1] == [o[0]] && [a, 0, 0, 0][..1] == [a];
  }

  lemma TwoOctets4(o: Octets4, a: Byte, b: Byte)
    ensures Contains(Block4(a, b, 0, 0, 16), V4(o)) <==> o[0] == a && o[1] == b
  {
    BlockHolds(Block4(a, b, 0, 0, 16), V4(o), 2, 0);
    assert o[..2] == [o[0], o[1]] && [a, b, 0, 0][..2] == [a, b];
  }

  lemma PartBlocks4(o: Octets4)
    ensures Contains(Block4(224, 0, 0, 0, 4), V4(o)) <==> 224 <= o[0] <= 239
    ensures Contains(Block4(172, 16, 0, 0, 12), V4(o)) <==> o[0] == 172 && 16 <= o[1] <= 31
  {
    BlockHolds(Block4(224, 0, 0, 0, 4), V4(o), 0, 4);
    BlockHolds(Block4(172, 16, 0, 0, 12), V4(o), 1, 4);
    assert o[..1] == [o[0]] && [172, 16, 0, 0][..1] == [172] && o[..0] == [224, 0, 0, 0][..0];
  }

  lemma OtherFamily(ip: IpAddr, i: nat)
    requires ip.V4? == (i >= 9)
    ensures !Holds(i, ip)
  {
  }

  lemma Held4(o: Octets4)
    ensures var ip := V4(o);
            && (Holds(0, ip) <==> o == [0, 0, 0, 0])
            && (Holds(1, ip) || Holds(2, ip) <==> o == [169, 254, 169, 254] || o == [100, 100, 100, 200])
            && (Holds(3, ip) <==> o[0] == 127)
            && (Holds(4, ip) <==> o[0] == 169 && o[1] == 254)
            && (Holds(5, ip) <==> 224 <= o[0] <= 239)
            && (Holds(6, ip) <==> o[0] == 10)
            && (Holds(7, ip) <==> o[0] == 172 && 16 <= o[1] <= 31)
            && (Holds(8, ip) <==> o[0] == 192 && o[1] == 168)
    ensures forall i: nat | i >= 9 :: !Holds(i, V4(o))
  {
    hide Contains, Block4, Block6;
    WholeBlock4(o, 0, 0, 0, 0);
    WholeBlock4(o, 169, 254, 169, 254);
    WholeBlock4(o, 100, 100, 100, 200);
    FirstOctet4(o, 127);
    TwoOctets4(o, 169, 254);
    FirstOctet4(o, 10);
    TwoOctets4(o, 192, 168);
    PartBlocks4(o);
    forall i: nat | i >= 9 ensures !Holds(i, V4(o)) {
      OtherFamily(V4(o), i);
    }
  }

  lemma ClassifyV4ByBlocks(o: Octets4)
    ensures forall i: nat | DecidedBy(V4(o), i) :: ClassifyV4(o) == BlockClass(i)
    ensures Unlisted(V4(o)) <==> ClassifyV4(o) == Global
  {
    Held4(o);
    hide Holds;
  }

  lemma WholeBlock6(o: Octets16, a: Byte, b: Byte, c: Byte, d: Byte, y: Byte, z: Byte)
    ensures Contains(Block6(a, b, c, d, y, z, 128), V6(o)) <==> o == [a, b, c, d] + ZERO10 + [y, z]
  {
    var all := [a, b, c, d] + ZERO10 + [y, z];
    BlockHolds(Block6(a, b, c, d, y, z, 128), V6(o), 16, 0);
    assert o[..16] == o && all[..16] == all;
  }

  lemma LinkLocalBlock6(o: Octets16)
    ensures Contains(Block6(0xFE, 0x80, 0, 0, 0, 0, 10), V6(o)) <==> o[0] == 0xFE && o[1] / 64 == 2
  {
    var a := Block6(0xFE, 0x80, 0, 0, 0, 0, 10).base.v6;
    BlockHolds(Block6(0xFE, 0x80, 0, 0, 0, 0, 10), V6(o), 1, 2);
    assert o[..1] == [o[0]] && a[..1] == [0xFE] && a[1] == 0x80;
    hide Contains;
  }

  lemma MulticastBlock6(o: Octets16)
    ensures Contains(Block6(0xFF, 0, 0, 0, 0, 0, 8), V6(o)) <==> o[0] == 0xFF
  {
    var a := Block6(0xFF, 0, 0, 0, 0, 0, 8).base.v6;
    BlockHolds(Block6(0xFF, 0, 0, 0, 0, 0, 8), V6(o), 1, 0);
    assert o[..1] == [o[0]] && a[..1] == [0xFF];
    hide Contains;
  }

  lemma UniqueLocalBlock6(o: Octets16)
    ensures Contains(Block6(0xFC, 0, 0, 0, 0, 0, 7), V6(o)) <==> o[0] / 2 == 126
  {
    var a := Block6(0xFC, 0, 0, 0, 0, 0, 7).base.v6;
    BlockHolds(Block6(0xFC, 0, 0, 0, 0, 0, 7), V6(o), 0, 7);
    assert a[..0] == o[..0] && a[0] == 0xFC;
    hide Contains;
  }

  lemma Held6(o: Octets16)
    ensures var ip := V6(o);
            && (Holds(9, ip) <==> o == ZERO10 + [0, 0, 0, 0, 0, 0])
            && (Holds(10, ip) <==> o == [0xFD, 0, 0x0E, 0xC2] + ZERO10 + [0x02, 0x54])
            && (Holds(11, ip) <==> o == ZERO10 + [0, 0, 0, 0, 0, 1])
            && (Holds(12, ip) <==> o[0] == 0xFE && o[1] / 64 == 2)
            && (Holds(13, ip) <==> o[0] == 0xFF)
            && (Holds(14, ip) <==> o[0] / 2 == 126)
    ensures forall i: nat | i < 9 || i > 14 :: !Holds(i, V6(o))
  {
    hide Contains, Block4, Block6;
    WholeBlock6(o, 0, 0, 0, 0, 0, 0);
    WholeBlock6(o, 0xFD, 0, 0x0E, 0xC2, 0x02, 0x54);
    WholeBlock6(o, 0, 0, 0, 0, 0, 1);
    LinkLocalBlock6(o);
    MulticastBlock6(o);
    UniqueLocalBlock6(o);
    assert [0, 0, 0, 0] + ZERO10 + [0, 0] == ZERO10 + [0, 0, 0, 0, 0, 0];
    assert [0, 0, 0, 0] + ZERO10 + [0, 1] == ZERO10 + [0, 0, 0, 0, 0, 1];
    forall i: nat | i < 9 ensures !Holds(i, V6(o)) {
      OtherFamily(V6(o), i);
    }
  }

  /** The first sixteen bits, as the code compares them. */
  lemma FirstSegment(o: Octets16)
    ensures var segment := (o[0] as int) * 256 + o[1] as int;
            && (segment / 64 == 0xFE80 / 64 <==> o[0] == 0xFE && o[1] / 64 == 2)
            && (segment / 512 == 0xFC00 / 512 <==> o[0] / 2 == 126)
  {
  }

  lemma ClassifyV6ByBlocks(o: Octets16)
    requires Mapped(o).None?
    ensures forall i: nat | DecidedBy(V6(o), i) :: ClassifyV6(o) == BlockClass(i)
    ensures Unlisted(V6(o)) <==> ClassifyV6(o) == Global
  {
    Held6(o);
    FirstSegment(o);
    hide Holds, Mapped;
  }

  /** The class of an address is that of the first block that holds its canonical
      form, and it is global exactly when none does. */
  lemma ClassifyByBlocks(ip: IpAddr)
    ensures forall i: nat | DecidedBy(Canonicalize(ip), i) :: Classify(ip) == BlockClass(i)
    ensures Unlisted(Canonicalize(ip)) <==> Classify(ip) == Global
  {
    CanonicalForm(ip, ip);
    var canonical := Canonicalize(ip);
    match canonical {
      case V4(o) => ClassifyV4ByBlocks(o);
      case V6(o) => ClassifyV6ByBlocks(o);
    }
  }

  /** No other block holds an unspecified address. */
  lemma UnspecifiedExactly(ip: IpAddr)
    requires Canonicalize(ip) == ip
    ensures Classify(ip) == Unspecified <==> Holds(UNSPECIFIED_V4, ip) || Holds(UNSPECIFIED_V6, ip)
  {
    match ip {
      case V4(o) => Held4(o);
      case V6(o) => Held6(o);
    }
    hide Holds;
  }
}
