/** IP addresses: classification, canonical form, networks, and the order in
    which the brokers sort them. */
module Address {
  import opened Prelude

  type Octets4 = s: seq<Byte> | |s| == 4 witness [0, 0, 0, 0]
  type Octets16 = s: seq<Byte> | |s| == 16 witness [0, 0, 0, 0, 0, 0, 0, 0, 0, 0, 0, 0, 0, 0, 0, 0]

  datatype IpAddr = V4(v4: Octets4) | V6(v6: Octets16) {
    function Octets(): (r: seq<Byte>) {
      if V4? then v4 else v6
    }
  }

  datatype AddressClass =
    | Unspecified | CloudMetadata | Loopback | LinkLocal | Multicast
    | PrivateRfc1918 | UniqueLocalIpv6 | Global

  const ZERO10: seq<Byte> := [0, 0, 0, 0, 0, 0, 0, 0, 0, 0]

  /** `to_ipv4_mapped`: `::ffff:a.b.c.d`, section 2.5.5.2 of RFC 4291. */
  function Mapped(v6: Octets16): (r: Option<Octets4>) {
    if v6[..10] == ZERO10 && v6[10] == 0xFF && v6[11] == 0xFF then Some(v6[12..]) else None
  }

  function ClassifyV4(o: Octets4): (c: AddressClass) {
    if o == [0, 0, 0, 0] then Unspecified
    else if o == [169, 254, 169, 254] || o == [100, 100, 100, 200] then CloudMetadata
    else if o[0] == 127 then Loopback
    else if o[0] == 169 && o[1] == 254 then LinkLocal
    else if 224 <= o[0] <= 239 then Multicast
    else if o[0] == 10 || (o[0] == 172 && 16 <= o[1] <= 31) || (o[0] == 192 && o[1] == 168) then PrivateRfc1918
    else Global
  }

  function ClassifyV6(o: Octets16): (c: AddressClass) {
    if o == ZERO10 + [0, 0, 0, 0, 0, 0] then Unspecified
    else match Mapped(o)
      case Some(v4) => ClassifyV4(v4)
      case None =>
        var segment := (o[0] as int) * 256 + o[1] as int;
        if o == [0xFD, 0, 0x0E, 0xC2] + ZERO10 + [0x02, 0x54] then CloudMetadata
        else if o == ZERO10 + [0, 0, 0, 0, 0, 1] then Loopback
        else if segment / 64 == 0xFE80 / 64 then LinkLocal
        else if o[0] == 0xFF then Multicast
        else if segment / 512 == 0xFC00 / 512 then UniqueLocalIpv6
        else Global
  }

  function Classify(ip: IpAddr): (c: AddressClass) {
    match ip
    case V4(o) => ClassifyV4(o)
    case V6(o) => ClassifyV6(o)
  }

  function Canonicalize(ip: IpAddr): (r: IpAddr) {
    match ip
    case V6(o) => (match Mapped(o) case Some(v4) => V4(v4) case None => ip)
    case V4(_) => ip
  }

  /** An IPv4 address written as an IPv4-mapped IPv6 address. */
  function AsMapped(v4: Octets4): (r: Octets16) {
    ZERO10 + [0xFF, 0xFF] + v4
  }

  /** The canonical form is a fixed point, has the same class, and two addresses
      share it exactly when they are equal or one is the other's mapped form. */
  lemma CanonicalForm(a: IpAddr, b: IpAddr)
    ensures Canonicalize(Canonicalize(a)) == Canonicalize(a)
    ensures Classify(Canonicalize(a)) == Classify(a)
    ensures Canonicalize(a) == Canonicalize(b) <==>
              || a == b
              || (a.V4? && b == V6(AsMapped(a.v4)))
              || (b.V4? && a == V6(AsMapped(b.v4)))
  {
    MappedInverse(a);
    MappedInverse(b);
  }

  lemma MappedInverse(a: IpAddr)
    ensures a.V4? ==> Mapped(AsMapped(a.v4)) == Some(a.v4)
    ensures a.V6? && Mapped(a.v6).Some? ==> a.v6 == AsMapped(Mapped(a.v6).value)
    ensures a.V6? && Mapped(a.v6).Some? ==> a.v6 != ZERO10 + [0, 0, 0, 0, 0, 0]
  {
    if a.V4? {
      var m := AsMapped(a.v4);
      assert m[..10] == ZERO10 && m[10] == 0xFF && m[11] == 0xFF && m[12..] == a.v4;
    } else if Mapped(a.v6).Some? {
      assert a.v6 == a.v6[..10] + [a.v6[10], a.v6[11]] + a.v6[12..];
      assert (ZERO10 + [0, 0, 0, 0, 0, 0])[10] == 0;
    }
  }

  // ---- Networks ------------------------------------------------------------

  datatype Network = Network(base: IpAddr, prefix: nat)

  function Bit(o: seq<Byte>, k: nat): (b: nat)
    requires k < 8 * |o|
  {
    var divisors := [128, 64, 32, 16, 8, 4, 2, 1];
    (o[k / 8] / divisors[k % 8]) % 2
  }

  /** `IpNet::contains`: same family and the same leading bits. */
  predicate Contains(net: Network, ip: IpAddr) {
    && net.base.V4? == ip.V4?
    && forall k: nat | k < net.prefix && k < 8 * |ip.Octets()| ::
         Bit(net.base.Octets(), k) == Bit(ip.Octets(), k)
  }

  predicate InSome(nets: seq<Network>, ip: IpAddr) {
    exists i | 0 <= i < |nets| :: Contains(nets[i], ip)
  }

  // ---- Order ---------------------------------------------------------------

  /** `IpAddr::cmp`: IPv4 before IPv6, then by octets. */
  predicate IpLess(a: IpAddr, b: IpAddr) {
    if a.V4? == b.V4? then Less(a.Octets(), b.Octets()) else a.V4?
  }

  lemma IpLessTotal(a: IpAddr, b: IpAddr)
    ensures IpLess(a, b) || a == b || IpLess(b, a)
    ensures !(IpLess(a, b) && IpLess(b, a))
    ensures !IpLess(a, a)
  {
    LessTotal(a.Octets(), b.Octets());
    if Less(a.Octets(), b.Octets()) {
      LessStrict(a.Octets(), b.Octets());
    }
    if Less(a.Octets(), a.Octets()) {
      LessStrict(a.Octets(), a.Octets());
    }
  }

  lemma IpLessTransitive(a: IpAddr, b: IpAddr, c: IpAddr)
    requires IpLess(a, b) && IpLess(b, c)
    ensures IpLess(a, c)
  {
    if a.V4? == b.V4? == c.V4? {
      LessTransitive(a.Octets(), b.Octets(), c.Octets());
    }
  }

  /** Sorted and free of duplicates. */
  ghost predicate StrictlySorted(s: seq<IpAddr>) {
    forall i, j | 0 <= i < j < |s| :: IpLess(s[i], s[j])
  }

  ghost function Elements(s: seq<IpAddr>): (r: set<IpAddr>) {
    set x | x in s
  }

  /** `x` put in its place, unless present. */
  function Insert(x: IpAddr, s: seq<IpAddr>): (r: seq<IpAddr>) {
    if s == [] then [x]
    else if s[0] == x then s
    else if IpLess(x, s[0]) then [x] + s
    else [s[0]] + Insert(x, s[1..])
  }

  lemma {:induction false} InsertMember(x: IpAddr, s: seq<IpAddr>, y: IpAddr)
    ensures y in Insert(x, s) <==> y == x || y in s
  {
    hide IpLess;
    if s != [] {
      assert s == [s[0]] + s[1..];
      InsertMember(x, s[1..], y);
    }
  }

  lemma ConsSorted(x: IpAddr, s: seq<IpAddr>)
    requires StrictlySorted(s) && forall y | y in s :: IpLess(x, y)
    ensures StrictlySorted([x] + s)
  {
    hide IpLess;
    var r := [x] + s;
    forall i, j | 0 <= i < j < |r| ensures IpLess(r[i], r[j]) {
      if i > 0 {
        assert r[i] == s[i - 1] && r[j] == s[j - 1];
      } else {
        assert r[j] in s;
      }
    }
  }

  lemma {:induction false} InsertKeepsOrder(x: IpAddr, s: seq<IpAddr>)
    requires StrictlySorted(s)
    ensures StrictlySorted(Insert(x, s)) && Elements(Insert(x, s)) == Elements(s) + {x}
  {
    forall y ensures y in Insert(x, s) <==> y == x || y in s {
      InsertMember(x, s, y);
    }
    InsertSorted(x, s);
  }

  lemma {:induction false} InsertSorted(x: IpAddr, s: seq<IpAddr>)
    requires StrictlySorted(s)
    ensures StrictlySorted(Insert(x, s))
  {
    if s != [] {
      var head, tail := s[0], s[1..];
      IpLessTotal(x, head);
      assert s == [head] + tail;
      hide IpLess;
      if head != x && IpLess(x, head) {
        forall y | y in s ensures IpLess(x, y) {
          var k :| 0 <= k < |s| && s[k] == y;
          if k > 0 {
            IpLessTransitive(x, head, y);
          }
        }
        ConsSorted(x, s);
      } else if head != x {
        InsertSorted(x, tail);
        forall y | y in Insert(x, tail) ensures IpLess(head, y) {
          InsertMember(x, tail, y);
          if y != x {
            var k :| 0 <= k < |tail| && tail[k] == y;
            assert s[k + 1] == y;
          }
        }
        ConsSorted(head, Insert(x, tail));
      }
    }
  }

  /** Sorting a set: the one strictly sorted sequence with these elements. */
  ghost function Sorted(addresses: set<IpAddr>): (s: seq<IpAddr>)
    ensures StrictlySorted(s) && Elements(s) == addresses
    decreases |addresses|
  {
    if addresses == {} then []
    else
      var x :| x in addresses;
      InsertKeepsOrder(x, Sorted(addresses - {x}));
      Insert(x, Sorted(addresses - {x}))
  }

  lemma {:induction false} SortedUnique(s: seq<IpAddr>, t: seq<IpAddr>)
    requires StrictlySorted(s) && StrictlySorted(t) && Elements(s) == Elements(t)
    ensures s == t
  {
    assert t != [] ==> t[0] in Elements(t);
    if s != [] {
      assert s[0] in Elements(s);
      var j :| 0 <= j < |t| && t[j] == s[0];
      assert t[0] in Elements(s);
      var i :| 0 <= i < |s| && s[i] == t[0];
      IpLessTotal(s[0], t[0]);
      assert s[0] == t[0];
      TailElements(s);
      TailElements(t);
      SortedUnique(s[1..], t[1..]);
      assert s == [s[0]] + s[1..] && t == [t[0]] + t[1..];
    }
  }

  lemma TailElements(s: seq<IpAddr>)
    requires s != [] && StrictlySorted(s)
    ensures Elements(s[1..]) == Elements(s) - {s[0]}
  {
    assert s == [s[0]] + s[1..];
    forall x | x in s[1..] ensures x != s[0] {
      var k :| 0 <= k < |s| - 1 && s[1..][k] == x;
      IpLessTotal(s[0], s[k + 1]);
    }
  }
}
