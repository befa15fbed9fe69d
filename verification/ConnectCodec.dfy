/** The CONNECT framing between the sandboxed agent and the egress broker. */
module ConnectCodec {
  import opened Prelude
  import opened Address
  import Utf8

  const PROTOCOL_VERSION: Byte := 1
  const MAX_HOSTNAME_LEN: nat := 253

  datatype Protocol = Tcp | Udp

  /** A host name is the octets of a string. */
  datatype Target = Hostname(host: seq<Byte>) | Ip(ip: IpAddr)

  type Port = n: nat | n <= U16_MAX

  datatype Request = Request(protocol: Protocol, port: Port, target: Target, expectedIp: Option<IpAddr>)

  datatype Error =
    | UnexpectedEof | UnsupportedVersion(version: Byte) | UnknownProtocol | HostnameLength | NotUtf8
    | UnknownTargetKind | InvalidIpVersion | InvalidExpectedFlag

  // ---- Encoding ------------------------------------------------------------

  function EncodeIp(ip: IpAddr): (r: seq<Byte>) {
    match ip
    case V4(o) => [4] + o
    case V6(o) => [6] + o
  }

  function Clamped(host: seq<Byte>): (r: seq<Byte>)
    ensures |r| <= MAX_HOSTNAME_LEN
  {
    if |host| <= MAX_HOSTNAME_LEN then host else host[..MAX_HOSTNAME_LEN]
  }

  function EncodeTarget(t: Target): (r: seq<Byte>) {
    match t
    case Hostname(host) => [1, |Clamped(host)|] + Clamped(host)
    case Ip(ip) => [2] + EncodeIp(ip)
  }

  function EncodeExpected(ip: Option<IpAddr>): (r: seq<Byte>) {
    match ip
    case Some(a) => [1] + EncodeIp(a)
    case None => [0]
  }

  function EncodeHeader(r: Request): (s: seq<Byte>)
    ensures |s| == 4
  {
    [PROTOCOL_VERSION, if r.protocol.Tcp? then 1 else 2, r.port / 256, r.port % 256]
  }

  function Encode(r: Request): (s: seq<Byte>) {
    EncodeHeader(r) + (EncodeTarget(r.target) + EncodeExpected(r.expectedIp))
  }

  // ---- The frame, octet by octet -------------------------------------------

  function IpWidth(ip: IpAddr): (n: nat) {
    if ip.V4? then 5 else 17
  }

  /** An address at this position: its version, then its octets. */
  predicate IpAt(s: seq<Byte>, i: nat, ip: IpAddr) {
    && i + IpWidth(ip) <= |s| && s[i] == (if ip.V4? then 4 else 6)
    && s[i + 1..i + IpWidth(ip)] == ip.Octets()
  }

  function HostWidth(host: seq<Byte>): (n: nat) {
    if |host| < 253 then |host| else 253
  }

  /** Where the target ends. */
  function TargetEnd(t: Target): (n: nat) {
    match t
    case Hostname(host) => 6 + HostWidth(host)
    case Ip(ip) => 5 + IpWidth(ip)
  }

  predicate TargetAt(s: seq<Byte>, t: Target) {
    TargetEnd(t) <= |s| &&
    match t
    case Hostname(host) => s[4] == 1 && s[5] == HostWidth(host) && s[6..TargetEnd(t)] == host[..HostWidth(host)]
    case Ip(ip) => s[4] == 2 && IpAt(s, 5, ip)
  }

  /** Version 1, protocol 1 or 2, the port with its high octet first, the target behind
      its kind, and the expected address behind its flag. */
  predicate Layout(s: seq<Byte>, r: Request) {
    var e := TargetEnd(r.target);
    && TargetAt(s, r.target) && s[0] == 1 && s[1] == (if r.protocol.Tcp? then 1 else 2)
    && r.port == 256 * s[2] as nat + s[3] as nat
    && match r.expectedIp
       case None => |s| == e + 1 && s[e] == 0
       case Some(ip) => |s| == e + 1 + IpWidth(ip) && s[e] == 1 && IpAt(s, e + 1, ip)
  }

  lemma IpEncoded(s: seq<Byte>, i: nat, ip: IpAddr)
    requires i + IpWidth(ip) <= |s|
    ensures IpAt(s, i, ip) <==> s[i..i + IpWidth(ip)] == EncodeIp(ip)
  {
    var here := s[i..i + IpWidth(ip)];
    assert here[0] == s[i] && here[1..] == s[i + 1..i + IpWidth(ip)];
    assert here == [here[0]] + here[1..];
  }

  lemma TargetEncoded(s: seq<Byte>, t: Target)
    requires TargetEnd(t) <= |s|
    ensures TargetAt(s, t) <==> s[4..TargetEnd(t)] == EncodeTarget(t)
  {
    var here := s[4..TargetEnd(t)];
    match t {
      case Hostname(host) =>
        assert here == [here[0], here[1]] + here[2..] && here[2..] == s[6..TargetEnd(t)];
      case Ip(ip) =>
        IpEncoded(s, 5, ip);
        assert here == [here[0]] + here[1..] && here[1..] == s[5..TargetEnd(t)];
        hide IpAt, EncodeIp;
    }
  }

  lemma SomeEncoded(s: seq<Byte>, e: nat, ip: IpAddr)
    requires e <= |s|
    ensures s[e..] == [1] + EncodeIp(ip) <==> |s| == e + 1 + IpWidth(ip) && s[e] == 1 && IpAt(s, e + 1, ip)
  {
    var here, width := s[e..], IpWidth(ip);
    assert |EncodeIp(ip)| == width;
    if |s| == e + 1 + width {
      IpEncoded(s, e + 1, ip);
      assert here == [s[e]] + s[e + 1..e + 1 + width];
      hide EncodeIp, IpAt;
      FirstOnly(s[e], s[e + 1..e + 1 + width], EncodeIp(ip));
    }
  }

  lemma FirstOnly(a: Byte, x: seq<Byte>, y: seq<Byte>)
    ensures [a] + x == [1] + y <==> a == 1 && x == y
  {
    assert ([a] + x)[0] == a && ([a] + x)[1..] == x && ([1] + y)[1..] == y;
  }

  lemma ExpectedEncoded(s: seq<Byte>, e: nat, expected: Option<IpAddr>)
    requires e <= |s|
    ensures s[e..] == EncodeExpected(expected) <==>
            match expected
            case None => |s| == e + 1 && s[e] == 0
            case Some(ip) => |s| == e + 1 + IpWidth(ip) && s[e] == 1 && IpAt(s, e + 1, ip)
  {
    match expected {
      case None =>
        if |s| == e + 1 {
          assert s[e..] == [s[e]];
        }
      case Some(ip) =>
        SomeEncoded(s, e, ip);
        hide EncodeIp, IpAt;
    }
  }

  lemma EncodedWidths(r: Request)
    ensures |EncodeTarget(r.target)| == TargetEnd(r.target) - 4
  {
  }

  lemma HeaderEncoded(s: seq<Byte>, r: Request)
    requires |s| >= 4
    ensures s[..4] == EncodeHeader(r) <==>
            && s[0] == 1 && s[1] == (if r.protocol.Tcp? then 1 else 2) && r.port == 256 * s[2] as nat + s[3] as nat
  {
    assert s[..4] == [s[0], s[1], s[2], s[3]];
  }

  /** The encoding of a request is the one string with this layout. */
  lemma LayoutExactly(s: seq<Byte>, r: Request)
    ensures s == Encode(r) <==> Layout(s, r)
  {
    var e := TargetEnd(r.target);
    EncodedWidths(r);
    if e <= |s| {
      TargetEncoded(s, r.target);
      ExpectedEncoded(s, e, r.expectedIp);
      HeaderEncoded(s, r);
      assert s == s[..4] + (s[4..e] + s[e..]);
      hide TargetAt, EncodeTarget, EncodeExpected, EncodeHeader, IpAt;
      if s == Encode(r) {
        Cut(s, EncodeHeader(r), EncodeTarget(r.target), EncodeExpected(r.expectedIp));
      }
    } else {
      hide EncodeTarget, EncodeExpected, EncodeHeader, IpAt;
    }
  }

  lemma Cut(s: seq<Byte>, a: seq<Byte>, b: seq<Byte>, c: seq<Byte>)
    requires s == a + (b + c)
    ensures s[..|a|] == a && s[|a|..|a| + |b|] == b && s[|a| + |b|..] == c
  {
  }

  // ---- Decoding ------------------------------------------------------------

  /** A value read off the front of the input, and what follows it. */
  datatype Parsed<+T> = Parsed(value: T, rest: seq<Byte>)

  function ReadExact(s: seq<Byte>, n: nat): (r: Result<Parsed<seq<Byte>>, Error>)
    ensures r.Success? ==> |r.value.value| == n && s == r.value.value + r.value.rest
  {
    if |s| < n then Failure(UnexpectedEof) else Success(Parsed(s[..n], s[n..]))
  }

  /** `canonical` is what the reader does with an address it has read. */
  function ReadIp(s: seq<Byte>, canonical: IpAddr -> IpAddr): (r: Result<Parsed<IpAddr>, Error>) {
    var version :- ReadExact(s, 1);
    if version.value[0] == 4 then
      var octets :- ReadExact(version.rest, 4);
      Success(Parsed(canonical(V4(octets.value)), octets.rest))
    else if version.value[0] == 6 then
      var octets :- ReadExact(version.rest, 16);
      Success(Parsed(canonical(V6(octets.value)), octets.rest))
    else Failure(InvalidIpVersion)
  }

  function ReadTarget(s: seq<Byte>, canonical: IpAddr -> IpAddr): (r: Result<Parsed<Target>, Error>) {
    var kind :- ReadExact(s, 1);
    if kind.value[0] == 1 then
      var length :- ReadExact(kind.rest, 1);
      var n := length.value[0];
      if n == 0 || n > MAX_HOSTNAME_LEN then Failure(HostnameLength)
      else
        var host :- ReadExact(length.rest, n);
        if Utf8.Valid(host.value) then Success(Parsed(Hostname(host.value), host.rest)) else Failure(NotUtf8)
    else if kind.value[0] == 2 then
      var ip :- ReadIp(kind.rest, canonical);
      Success(Parsed(Ip(ip.value), ip.rest))
    else Failure(UnknownTargetKind)
  }

  function ReadExpected(s: seq<Byte>, canonical: IpAddr -> IpAddr): (r: Result<Parsed<Option<IpAddr>>, Error>) {
    var flag :- ReadExact(s, 1);
    if flag.value[0] == 0 then Success(Parsed(None, flag.rest))
    else if flag.value[0] == 1 then
      var ip :- ReadIp(flag.rest, canonical);
      Success(Parsed(Some(ip.value), ip.rest))
    else Failure(InvalidExpectedFlag)
  }

  function ReadHeader(s: seq<Byte>): (r: Result<Parsed<(Protocol, Port)>, Error>) {
    var header :- ReadExact(s, 4);
    var h := header.value;
    if h[0] != PROTOCOL_VERSION then Failure(UnsupportedVersion(h[0]))
    else if h[1] != 1 && h[1] != 2 then Failure(UnknownProtocol)
    else
      var high: nat, low: nat := h[2], h[3];
      Success(Parsed((if h[1] == 1 then Tcp else Udp, 256 * high + low), header.rest))
  }

  function DecodeWith(s: seq<Byte>, canonical: IpAddr -> IpAddr): (r: Result<Parsed<Request>, Error>) {
    var header :- ReadHeader(s);
    var target :- ReadTarget(header.rest, canonical);
    var expected :- ReadExpected(target.rest, canonical);
    Success(Parsed(Request(header.value.0, header.value.1, target.value, expected.value), expected.rest))
  }

  /** `decode_request`: addresses are put in canonical form as they are read. */
  function Decode(s: seq<Byte>): (r: Result<Parsed<Request>, Error>) {
    DecodeWith(s, Canonicalize)
  }

  function Same(ip: IpAddr): (r: IpAddr) {
    ip
  }

  // ---- One part at a time --------------------------------------------------

  lemma TakeFront(a: seq<Byte>, rest: seq<Byte>)
    ensures ReadExact(a + rest, |a|) == Success(Parsed(a, rest))
  {
  }

  lemma IpBack(ip: IpAddr, rest: seq<Byte>, canonical: IpAddr -> IpAddr)
    ensures ReadIp(EncodeIp(ip) + rest, canonical) == Success(Parsed(canonical(ip), rest))
  {
    var s := EncodeIp(ip) + rest;
    assert s == [s[0]] + (ip.Octets() + rest);
    TakeFront([s[0]], ip.Octets() + rest);
    TakeFront(ip.Octets(), rest);
    hide ReadExact;
  }

  lemma IpForth(s: seq<Byte>)
    requires ReadIp(s, Same).Success?
    ensures var p := ReadIp(s, Same).value; s == EncodeIp(p.value) + p.rest
  {
    var version := ReadExact(s, 1).value;
    var p := ReadIp(s, Same).value;
    assert version.value == [version.value[0]];
    assert version.rest == p.value.Octets() + p.rest;
    assert s == version.value + version.rest == [version.value[0]] + p.value.Octets() + p.rest;
  }

  /** What the codec carries: a host name of 1 to 253 octets. */
  predicate Encodable(t: Target) {
    t.Hostname? ==> 1 <= |t.host| <= MAX_HOSTNAME_LEN && Utf8.Valid(t.host)
  }

  function CanonicalTarget(t: Target, canonical: IpAddr -> IpAddr): (r: Target) {
    if t.Ip? then Ip(canonical(t.ip)) else t
  }

  function CanonicalExpected(e: Option<IpAddr>, canonical: IpAddr -> IpAddr): (r: Option<IpAddr>) {
    if e.Some? then Some(canonical(e.value)) else None
  }

  function CanonicalRequest(r: Request, canonical: IpAddr -> IpAddr): (c: Request) {
    r.(target := CanonicalTarget(r.target, canonical), expectedIp := CanonicalExpected(r.expectedIp, canonical))
  }

  /** Reading a host name behind its kind and length octets. */
  lemma HostRead(n: Byte, host: seq<Byte>, rest: seq<Byte>, canonical: IpAddr -> IpAddr)
    requires n == |host|
    ensures ReadTarget([1] + ([n] + (host + rest)), canonical) ==
            if n == 0 || n > MAX_HOSTNAME_LEN then Failure(HostnameLength)
            else if Utf8.Valid(host) then Success(Parsed(Hostname(host), rest))
            else Failure(NotUtf8)
  {
    TakeFront([1], [n] + (host + rest));
    TakeFront([n], host + rest);
    TakeFront(host, rest);
    hide ReadExact, Utf8.Valid;
  }

  lemma HostLayout(host: seq<Byte>, rest: seq<Byte>)
    ensures var c := Clamped(host);
            EncodeTarget(Hostname(host)) + rest == [1] + ([|c|] + (c + rest))
  {
  }

  lemma TargetBack(t: Target, rest: seq<Byte>, canonical: IpAddr -> IpAddr)
    requires Encodable(t)
    ensures ReadTarget(EncodeTarget(t) + rest, canonical) == Success(Parsed(CanonicalTarget(t, canonical), rest))
  {
    hide ReadExact, Utf8.Valid, ReadIp;
    match t {
      case Hostname(host) =>
        HostLayout(host, rest);
        HostRead(|host|, host, rest, canonical);
        hide EncodeTarget, ReadTarget;
      case Ip(ip) =>
        assert EncodeTarget(t) + rest == [2] + (EncodeIp(ip) + rest);
        TakeFront([2], EncodeIp(ip) + rest);
        IpBack(ip, rest, canonical);
    }
  }

  lemma HostForth(s: seq<Byte>, kind: seq<Byte>)
    requires ReadTarget(s, Same).Success? && ReadTarget(s, Same).value.value.Hostname?
    requires ReadExact(s, 1) == Success(Parsed([1], kind))
    ensures var p := ReadTarget(s, Same).value; Encodable(p.value) && s == EncodeTarget(p.value) + p.rest
  {
    hide Utf8.Valid, ReadIp;
    var p, length := ReadTarget(s, Same).value, ReadExact(kind, 1).value;
    var host := p.value.host;
    assert length.rest == host + p.rest && length.value == [|host|];
    assert kind == [|host|] + (host + p.rest);
    hide ReadExact, ReadTarget;
    HostLayout(host, p.rest);
  }

  lemma TargetForth(s: seq<Byte>)
    requires ReadTarget(s, Same).Success?
    ensures var p := ReadTarget(s, Same).value; Encodable(p.value) && s == EncodeTarget(p.value) + p.rest
  {
    hide Utf8.Valid, ReadIp, EncodeIp;
    var kind := ReadExact(s, 1).value;
    var p := ReadTarget(s, Same).value;
    assert kind.value == [kind.value[0]];
    if p.value.Hostname? {
      HostForth(s, kind.rest);
    } else {
      IpForth(kind.rest);
      assert s == [2] + kind.rest;
    }
  }

  lemma ExpectedBack(e: Option<IpAddr>, rest: seq<Byte>, canonical: IpAddr -> IpAddr)
    ensures ReadExpected(EncodeExpected(e) + rest, canonical) == Success(Parsed(CanonicalExpected(e, canonical), rest))
  {
    match e {
      case None => TakeFront([0], rest);
      case Some(ip) =>
        assert EncodeExpected(e) + rest == [1] + (EncodeIp(ip) + rest);
        TakeFront([1], EncodeIp(ip) + rest);
        IpBack(ip, rest, canonical);
    }
    hide ReadExact, ReadIp;
  }

  lemma ExpectedForth(s: seq<Byte>)
    requires ReadExpected(s, Same).Success?
    ensures var p := ReadExpected(s, Same).value; s == EncodeExpected(p.value) + p.rest
  {
    hide ReadIp, EncodeIp;
    var flag := ReadExact(s, 1).value;
    assert s == [flag.value[0]] + flag.rest;
    if flag.value[0] == 1 {
      IpForth(flag.rest);
    }
  }

  lemma HeaderBack(r: Request, rest: seq<Byte>)
    ensures ReadHeader(EncodeHeader(r) + rest) == Success(Parsed((r.protocol, r.port), rest))
  {
    TakeFront(EncodeHeader(r), rest);
  }

  lemma HeaderForth(s: seq<Byte>, r: Request)
    requires ReadHeader(s).Success? && ReadHeader(s).value.value == (r.protocol, r.port)
    ensures s == EncodeHeader(r) + ReadHeader(s).value.rest
  {
    var h := ReadExact(s, 4).value.value;
    assert h == [h[0], h[1], h[2], h[3]];
  }

  // ---- The whole frame -----------------------------------------------------

  lemma EncodingDecodes(r: Request, rest: seq<Byte>, canonical: IpAddr -> IpAddr)
    requires Encodable(r.target)
    ensures DecodeWith(Encode(r) + rest, canonical) == Success(Parsed(CanonicalRequest(r, canonical), rest))
  {
    var expected := EncodeExpected(r.expectedIp) + rest;
    var target := EncodeTarget(r.target) + expected;
    assert Encode(r) + rest == EncodeHeader(r) + target;
    HeaderBack(r, target);
    TargetBack(r.target, expected, canonical);
    ExpectedBack(r.expectedIp, rest, canonical);
    hide EncodeHeader, EncodeTarget, EncodeExpected, ReadHeader, ReadTarget, ReadExpected, Encodable;
  }

  /** Round trip: for every request the protocol can carry and any octets after
      it, decoding the encoding gives the request with its addresses in canonical
      form and exactly those octets. */
  lemma RoundTrip(r: Request, rest: seq<Byte>)
    requires Encodable(r.target)
    ensures Decode(Encode(r) + rest) == Success(Parsed(CanonicalRequest(r, Canonicalize), rest))
  {
    EncodingDecodes(r, rest, Canonicalize);
  }

  // ---- Frames that are cut short -------------------------------------------

  lemma TooShort(s: seq<Byte>, n: nat)
    requires |s| < n
    ensures ReadExact(s, n) == Failure(UnexpectedEof)
  {
  }

  lemma IpShort(ip: IpAddr, n: nat, canonical: IpAddr -> IpAddr)
    requires n < |EncodeIp(ip)|
    ensures ReadIp(EncodeIp(ip)[..n], canonical) == Failure(UnexpectedEof)
  {
    var s := EncodeIp(ip)[..n];
    hide ReadExact;
    if n == 0 {
      TooShort(s, 1);
    } else {
      var tail := ip.Octets()[..n - 1];
      assert s == [EncodeIp(ip)[0]] + tail;
      TakeFront([EncodeIp(ip)[0]], tail);
      TooShort(tail, |ip.Octets()|);
    }
  }

  lemma HostShort(n: Byte, host: seq<Byte>, canonical: IpAddr -> IpAddr)
    requires 1 <= n <= MAX_HOSTNAME_LEN && |host| < n
    ensures ReadTarget([1] + ([n] + host), canonical) == Failure(UnexpectedEof)
  {
    TakeFront([1], [n] + host);
    TakeFront([n], host);
    TooShort(host, n);
    hide ReadExact, Utf8.Valid, ReadIp;
  }

  lemma KindOnly(canonical: IpAddr -> IpAddr)
    ensures ReadTarget([1], canonical) == Failure(UnexpectedEof) == ReadTarget([], canonical)
  {
    assert [1] + [] == [1];
    TakeFront([1], []);
    TooShort([], 1);
    hide ReadExact, Utf8.Valid, ReadIp;
  }

  lemma TargetShort(t: Target, n: nat, canonical: IpAddr -> IpAddr)
    requires Encodable(t) && n < |EncodeTarget(t)|
    ensures ReadTarget(EncodeTarget(t)[..n], canonical) == Failure(UnexpectedEof)
  {
    hide Utf8.Valid, ReadExact, ReadIp;
    var s := EncodeTarget(t)[..n];
    KindOnly(canonical);
    match t {
      case Hostname(host) =>
        hide ReadTarget;
        if n == 0 {
          assert s == [];
        } else if n == 1 {
          assert s == [1];
        } else {
          assert s == [1] + ([|host|] + host[..n - 2]);
          HostShort(|host|, host[..n - 2], canonical);
        }
      case Ip(ip) =>
        if n == 0 {
          assert s == [];
        } else {
          var tail := EncodeIp(ip)[..n - 1];
          assert s == [2] + tail;
          TakeFront([2], tail);
          IpShort(ip, n - 1, canonical);
        }
    }
  }

  lemma ExpectedShort(e: Option<IpAddr>, n: nat, canonical: IpAddr -> IpAddr)
    requires n < |EncodeExpected(e)|
    ensures ReadExpected(EncodeExpected(e)[..n], canonical) == Failure(UnexpectedEof)
  {
    hide ReadExact, ReadIp;
    var s := EncodeExpected(e)[..n];
    if n == 0 {
      TooShort(s, 1);
    } else {
      var tail := EncodeIp(e.value)[..n - 1];
      assert s == [1] + tail;
      TakeFront([1], tail);
      IpShort(e.value, n - 1, canonical);
    }
  }

  /** A frame cut short anywhere is reported as that, whatever it was to say. */
  lemma TruncatedIsEof(r: Request, n: nat)
    requires Encodable(r.target) && n < |Encode(r)|
    ensures Decode(Encode(r)[..n]) == Failure(UnexpectedEof)
  {
    var h, t, x := EncodeHeader(r), EncodeTarget(r.target), EncodeExpected(r.expectedIp);
    var s := Encode(r)[..n];
    hide Utf8.Valid, EncodeHeader, EncodeTarget, EncodeExpected, ReadTarget, ReadExpected, Encodable;
    if n >= 4 {
      var m := n - 4;
      assert s == h + (t + x)[..m];
      HeaderBack(r, (t + x)[..m]);
      hide ReadHeader;
      if m < |t| {
        assert (t + x)[..m] == t[..m];
        TargetShort(r.target, m, Canonicalize);
      } else {
        assert (t + x)[..m] == t + x[..m - |t|];
        TargetBack(r.target, x[..m - |t|], Canonicalize);
        ExpectedShort(r.expectedIp, m - |t|, Canonicalize);
      }
    }
  }

  // ---- Which frames there are ----------------------------------------------

  /** Before its addresses are rewritten, a frame is accepted exactly when it is
      the encoding of the request read from it. */
  lemma AcceptedIsEncoding(s: seq<Byte>, r: Request, rest: seq<Byte>)
    ensures DecodeWith(s, Same) == Success(Parsed(r, rest)) <==> Encodable(r.target) && s == Encode(r) + rest
  {
    hide EncodeHeader, EncodeTarget, EncodeExpected, ReadHeader, ReadTarget, ReadExpected, Encodable;
    if Encodable(r.target) {
      EncodingDecodes(r, rest, Same);
    }
    if DecodeWith(s, Same) == Success(Parsed(r, rest)) {
      var header := ReadHeader(s).value;
      HeaderForth(s, r);
      TargetForth(header.rest);
      ExpectedForth(ReadTarget(header.rest, Same).value.rest);
    }
  }

  /** Canonical form is the only thing decoding changes. */
  lemma DecodeCanonicalizes(s: seq<Byte>)
    ensures match DecodeWith(s, Same)
            case Failure(e) => Decode(s) == Failure(e)
            case Success(p) => Decode(s) == Success(Parsed(CanonicalRequest(p.value, Canonicalize), p.rest))
  {
    hide Canonicalize, ReadExact, Utf8.Valid;
  }

  /** Frames delimit themselves: no encoding is a prefix of another's stream, and
      two requests decode alike exactly when their canonical forms agree. */
  lemma SelfDelimiting(a: Request, x: seq<Byte>, b: Request, y: seq<Byte>)
    requires Encodable(a.target) && Encodable(b.target)
    ensures Encode(a) + x == Encode(b) + y <==> a == b && x == y
    ensures Decode(Encode(a) + x) == Decode(Encode(b) + y) <==>
            CanonicalRequest(a, Canonicalize) == CanonicalRequest(b, Canonicalize) && x == y
  {
    AcceptedIsEncoding(Encode(a) + x, a, x);
    AcceptedIsEncoding(Encode(b) + y, b, y);
    RoundTrip(a, x);
    RoundTrip(b, y);
    hide DecodeWith, Decode, Encode, CanonicalRequest, Encodable;
  }

  /** The round trip holds for a host name exactly when it has 1 to 253 octets. */
  lemma RoundTripExactly(r: Request, rest: seq<Byte>)
    requires r.target.Hostname? ==> Utf8.Valid(r.target.host)
    ensures Decode(Encode(r) + rest) == Success(Parsed(CanonicalRequest(r, Canonicalize), rest)) <==>
            (r.target.Hostname? ==> 1 <= |r.target.host| <= MAX_HOSTNAME_LEN)
  {
    if Encodable(r.target) {
      RoundTrip(r, rest);
    } else {
      var host := r.target.host;
      var after := EncodeExpected(r.expectedIp) + rest;
      var target := EncodeTarget(r.target) + after;
      assert Encode(r) + rest == EncodeHeader(r) + target;
      HeaderBack(r, target);
      OutOfBounds(host, after);
      hide EncodeHeader, EncodeTarget, EncodeExpected, ReadHeader, ReadTarget, ReadExpected, Encodable;
    }
  }

  lemma OutOfBounds(host: seq<Byte>, rest: seq<Byte>)
    requires host == [] || |host| > MAX_HOSTNAME_LEN
    ensures var t := ReadTarget(EncodeTarget(Hostname(host)) + rest, Canonicalize);
            t.Success? ==> t.value.value != Hostname(host)
  {
    var c := Clamped(host);
    HostLayout(host, rest);
    HostRead(|c|, c, rest, Canonicalize);
    hide ReadTarget, EncodeTarget, Utf8.Valid;
  }

  // ---- As written ----------------------------------------------------------

  /** The encoder appends to a buffer. */
  method EncodeRequest(r: Request) returns (buffer: seq<Byte>)
    ensures buffer == Encode(r)
  {
    hide EncodeIp;
    buffer := [PROTOCOL_VERSION];
    buffer := buffer + [if r.protocol.Tcp? then 1 else 2];
    buffer := buffer + [r.port / 256, r.port % 256];
    assert buffer == EncodeHeader(r);
    ghost var header := buffer;
    match r.target {
      case Hostname(host) =>
        buffer := buffer + [1];
        buffer := buffer + [|Clamped(host)|];
        buffer := buffer + Clamped(host);
      case Ip(ip) =>
        buffer := buffer + [2];
        buffer := buffer + EncodeIp(ip);
    }
    assert buffer == header + EncodeTarget(r.target);
    hide EncodeHeader, EncodeTarget;
    ghost var before := buffer;
    match r.expectedIp {
      case Some(ip) =>
        buffer := buffer + [1];
        buffer := buffer + EncodeIp(ip);
      case None => buffer := buffer + [0];
    }
    assert buffer == before + EncodeExpected(r.expectedIp);
  }

  /** A byte stream read field by field. */
  class Reader {
    const input: seq<Byte>
    var at: nat

    ghost predicate Valid()
      reads this
    {
      at <= |input|
    }

    ghost function Rest(): (s: seq<Byte>)
      requires Valid()
      reads this
    {
      input[at..]
    }

    constructor (input: seq<Byte>)
      ensures Valid() && this.input == input && Rest() == input
    {
      this.input, at := input, 0;
    }

    /** `read_exact`: all the octets, or an error. */
    method Take(n: nat) returns (r: Result<seq<Byte>, Error>)
      requires Valid()
      modifies this
      ensures Valid()
      ensures match r
              case Success(octets) => ReadExact(old(Rest()), n) == Success(Parsed(octets, Rest()))
              case Failure(e) => ReadExact(old(Rest()), n) == Failure(e)
    {
      if |input| - at < n {
        return Failure(UnexpectedEof);
      }
      assert input[at..][..n] == input[at..at + n] && input[at..][n..] == input[at + n..];
      r := Success(input[at..at + n]);
      at := at + n;
    }

    method TakeIp() returns (r: Result<IpAddr, Error>)
      requires Valid()
      modifies this
      ensures Valid()
      ensures match r
              case Success(ip) => ReadIp(old(Rest()), Canonicalize) == Success(Parsed(ip, Rest()))
              case Failure(e) => ReadIp(old(Rest()), Canonicalize) == Failure(e)
    {
      hide ReadExact, Canonicalize;
      var version :- Take(1);
      if version[0] == 4 {
        var octets :- Take(4);
        return Success(Canonicalize(V4(octets)));
      } else if version[0] == 6 {
        var octets :- Take(16);
        return Success(Canonicalize(V6(octets)));
      }
      return Failure(InvalidIpVersion);
    }

    method TakeTarget() returns (r: Result<Target, Error>)
      requires Valid()
      modifies this
      ensures Valid()
      ensures match r
              case Success(t) => ReadTarget(old(Rest()), Canonicalize) == Success(Parsed(t, Rest()))
              case Failure(e) => ReadTarget(old(Rest()), Canonicalize) == Failure(e)
    {
      hide ReadExact, ReadIp, Utf8.Valid;
      var kind :- Take(1);
      if kind[0] == 1 {
        var length :- Take(1);
        if length[0] == 0 || length[0] > MAX_HOSTNAME_LEN {
          return Failure(HostnameLength);
        }
        var host :- Take(length[0]);
        if !Utf8.Valid(host) {
          return Failure(NotUtf8);
        }
        return Success(Hostname(host));
      } else if kind[0] == 2 {
        var ip :- TakeIp();
        return Success(Ip(ip));
      }
      return Failure(UnknownTargetKind);
    }

    /** `decode_request`: consumes exactly one frame. */
    method DecodeRequest() returns (r: Result<Request, Error>)
      requires Valid()
      modifies this
      ensures Valid()
      ensures match r
              case Success(request) => Decode(old(Rest())) == Success(Parsed(request, Rest()))
              case Failure(e) => Decode(old(Rest())) == Failure(e)
    {
      hide ReadExact, ReadIp, ReadTarget;
      var h :- Take(4);
      if h[0] != PROTOCOL_VERSION {
        return Failure(UnsupportedVersion(h[0]));
      }
      if h[1] != 1 && h[1] != 2 {
        return Failure(UnknownProtocol);
      }
      var high: nat, low: nat := h[2], h[3];
      var target :- TakeTarget();
      var flag :- Take(1);
      var expected := None;
      if flag[0] == 1 {
        var ip :- TakeIp();
        expected := Some(ip);
      } else if flag[0] != 0 {
        return Failure(InvalidExpectedFlag);
      }
      return Success(Request(if h[1] == 1 then Tcp else Udp, 256 * high + low, target, expected));
    }
  }
}
