/** What the two brokers do with one upstream answer before they pin it. */
module Resolution {
  import opened Prelude
  import opened Address
  import opened Policy
  import opened DnsBudget
  import Domain

  datatype Record = Record(ip: IpAddr, ttlSecs: nat)

  /** An upstream answer: the CNAME hops, the final owner, its addresses. */
  datatype Chain = Chain(cnames: seq<string>, finalName: string, addresses: seq<Record>)

  datatype ResponseCode = FormErr | ServFail | NxDomain | NotImp | Refused

  function NamesToValidate(c: Chain): (r: seq<string>) {
    c.cnames + [c.finalName]
  }

  predicate HopsAllowed(e: Engine, s: Snapshot, c: Chain) {
    forall i | 0 <= i < |NamesToValidate(c)| :: EvaluateDomainName(e, s, NamesToValidate(c)[i]) == Success(true)
  }

  function TypeOf(ip: IpAddr): (t: RecordType) {
    if ip.V4? then A else Aaaa
  }

  /** The canonical addresses of one record type, in answer order. */
  function Matching(records: seq<Record>, qtype: RecordType): (r: seq<Record>) {
    if records == [] then []
    else
      var head := records[0].(ip := Canonicalize(records[0].ip));
      (if TypeOf(head.ip) == qtype then [head] else []) + Matching(records[1..], qtype)
  }

  /** The first hop that stops a DNS query, if any. */
  function HopVerdict(e: Engine, s: Snapshot, names: seq<string>): (r: Option<ResponseCode>)
    ensures r.None? <==> forall i | 0 <= i < |names| :: EvaluateDomainName(e, s, names[i]) == Success(true)
  {
    if names == [] then None
    else match EvaluateDomainName(e, s, names[0])
      case Failure(_) => Some(FormErr)
      case Success(false) => Some(Refused)
      case Success(true) =>
        assert forall i | 1 <= i < |names| :: names[i] == names[1..][i - 1];
        HopVerdict(e, s, names[1..])
  }

  predicate AllPermitted(e: Engine, records: seq<Record>) {
    forall i | 0 <= i < |records| :: AddressPermitted(e, records[i].ip)
  }

  function Truncate<T>(s: seq<T>, n: nat): (r: seq<T>) {
    if |s| > n then s[..n] else s
  }

  function MinTtl(records: seq<Record>): (r: nat)
    ensures forall i | 0 <= i < |records| :: r <= records[i].ttlSecs
    ensures if records == [] then r == 0 else exists i | 0 <= i < |records| :: r == records[i].ttlSecs
  {
    if records == [] then 0
    else
      assert forall i | 1 <= i < |records| :: records[i] == records[1..][i - 1];
      if |records| == 1 || records[0].ttlSecs < MinTtl(records[1..]) then records[0].ttlSecs
      else
        assert forall i | 0 <= i < |records[1..]| :: records[1..][i] == records[i + 1];
        MinTtl(records[1..])
  }

  /** What a DNS query would pin: addresses of the asked type with one TTL. */
  function DnsValidate(e: Engine, s: Snapshot, l: Limits, c: Chain, qtype: RecordType)
    : (r: Result<(seq<IpAddr>, nat), ResponseCode>)
  {
    match HopVerdict(e, s, NamesToValidate(c))
    case Some(code) => Failure(code)
    case None =>
      var matching := Matching(c.addresses, qtype);
      if !AllPermitted(e, matching) then Failure(Refused)
      else
        var kept := Truncate(matching, l.maxResponseRecords);
        Success((Ips(kept), CapTtl(e, MinTtl(kept))))
  }

  function Ips(records: seq<Record>): (r: seq<IpAddr>)
    ensures |r| == |records| && forall i | 0 <= i < |records| :: r[i] == records[i].ip
  {
    seq(|records|, i requires 0 <= i < |records| => records[i].ip)
  }

  /** What a fresh CONNECT resolution keeps before sorting: canonical addresses
      of an allowed type and class, the others silently dropped. */
  function Acceptable(e: Engine, l: Limits, records: seq<Record>): (r: seq<Record>) {
    if records == [] then []
    else
      var head := records[0].(ip := Canonicalize(records[0].ip));
      (if TypeOf(head.ip) in l.allowedRecordTypes && AddressPermitted(e, head.ip) then [head] else []) +
      Acceptable(e, l, records[1..])
  }

  /** Insertion into a list sorted by address; an address already there keeps
      its earlier record. */
  function InsertRecord(x: Record, s: seq<Record>): (r: seq<Record>) {
    if s == [] then [x]
    else if s[0].ip == x.ip then s
    else if IpLess(x.ip, s[0].ip) then [x] + s
    else [s[0]] + InsertRecord(x, s[1..])
  }

  /** The stable sort by address followed by the removal of equal neighbours. */
  function SortDedup(records: seq<Record>): (r: seq<Record>) {
    if records == [] then []
    else InsertRecord(records[|records| - 1], SortDedup(records[..|records| - 1]))
  }

  function ConnectValidate(e: Engine, l: Limits, c: Chain): (r: seq<Record>) {
    Truncate(SortDedup(Acceptable(e, l, c.addresses)), l.maxResponseRecords)
  }

  // ---- Meaning -------------------------------------------------------------

  /** `ip` may be pinned for this answer with this TTL: every hop was allowed
      under the snapshot, some record of the answer is this address, its type is
      on the allowlist, its class is permitted, and the TTL is within the record's
      and is some record's, cut to the policy's. */
  ghost predicate Pinnable(e: Engine, s: Snapshot, l: Limits, c: Chain, ip: IpAddr, ttlSecs: nat) {
    && HopsAllowed(e, s, c)
    && AddressPermitted(e, ip)
    && TypeOf(ip) in l.allowedRecordTypes
    && (exists i | 0 <= i < |c.addresses| :: Backs(c.addresses[i], ip, ttlSecs))
    && (exists i | 0 <= i < |c.addresses| :: CutFrom(c.addresses[i], e.maxTtlSecs, ttlSecs))
  }

  ghost predicate CutFrom(r: Record, max: nat, ttlSecs: nat) {
    ttlSecs <= r.ttlSecs && ttlSecs <= max && (ttlSecs == r.ttlSecs || ttlSecs == max)
  }

  ghost predicate Backs(r: Record, ip: IpAddr, ttlSecs: nat) {
    Canonicalize(r.ip) == ip && ttlSecs <= r.ttlSecs
  }

  lemma {:induction false} MatchingFrom(records: seq<Record>, qtype: RecordType, i: nat) returns (j: nat)
    requires i < |Matching(records, qtype)|
    ensures j < |records| && Matching(records, qtype)[i] == Record(Canonicalize(records[j].ip), records[j].ttlSecs)
    ensures TypeOf(Matching(records, qtype)[i].ip) == qtype
  {
    var here := TypeOf(Canonicalize(records[0].ip)) == qtype;
    if here && i == 0 {
      j := 0;
    } else {
      j := MatchingFrom(records[1..], qtype, if here then i - 1 else i);
      j := j + 1;
    }
  }

  /** Everything a DNS query would pin may be pinned. */
  lemma DnsPinsArePinnable(e: Engine, s: Snapshot, l: Limits, c: Chain, qtype: RecordType, k: nat)
    requires qtype in l.allowedRecordTypes
    requires DnsValidate(e, s, l, c, qtype).Success? && k < |DnsValidate(e, s, l, c, qtype).value.0|
    ensures var (ips, ttl) := DnsValidate(e, s, l, c, qtype).value;
            Pinnable(e, s, l, c, ips[k], ttl) && |ips| <= l.maxResponseRecords
  {
    var matching := Matching(c.addresses, qtype);
    var kept := Truncate(matching, l.maxResponseRecords);
    assert kept[k] == matching[k];
    var j := MatchingFrom(c.addresses, qtype, k);
    var ttl := CapTtl(e, MinTtl(kept));
    assert Backs(c.addresses[j], kept[k].ip, ttl);
    var least :| 0 <= least < |kept| && MinTtl(kept) == kept[least].ttlSecs;
    assert kept[least] == matching[least];
    var i := MatchingFrom(c.addresses, qtype, least);
    assert CutFrom(c.addresses[i], e.maxTtlSecs, ttl);
  }

  lemma {:induction false} MatchingCovers(records: seq<Record>, qtype: RecordType, i: nat)
    requires i < |records| && TypeOf(Canonicalize(records[i].ip)) == qtype
    ensures Record(Canonicalize(records[i].ip), records[i].ttlSecs) in Matching(records, qtype)
  {
    if i > 0 {
      MatchingCovers(records[1..], qtype, i - 1);
    }
  }

  ghost predicate AskedFor(r: Record, qtype: RecordType) {
    TypeOf(Canonicalize(r.ip)) == qtype
  }

  /** A DNS query is answered exactly when every hop and every address of the
      asked type is allowed; then the answer has all of them, up to the limit on
      records. */
  lemma DnsAnsweredExactly(e: Engine, s: Snapshot, l: Limits, c: Chain, qtype: RecordType)
    ensures DnsValidate(e, s, l, c, qtype).Success? <==>
            && HopsAllowed(e, s, c)
            && forall i | 0 <= i < |c.addresses| && AskedFor(c.addresses[i], qtype) ::
                 AddressPermitted(e, Canonicalize(c.addresses[i].ip))
    ensures DnsValidate(e, s, l, c, qtype).Success? ==>
              var ips := DnsValidate(e, s, l, c, qtype).value.0;
              || |ips| == l.maxResponseRecords
              || forall i | 0 <= i < |c.addresses| && AskedFor(c.addresses[i], qtype) ::
                   Canonicalize(c.addresses[i].ip) in ips
  {
    hide AddressPermitted, EvaluateDomainName, Canonicalize, MinTtl, CapTtl;
    var matching := Matching(c.addresses, qtype);
    forall i | 0 <= i < |c.addresses| && AskedFor(c.addresses[i], qtype)
      ensures exists k | 0 <= k < |matching| :: matching[k].ip == Canonicalize(c.addresses[i].ip)
    {
      MatchingCovers(c.addresses, qtype, i);
    }
    forall k | 0 <= k < |matching|
      ensures exists i | 0 <= i < |c.addresses| ::
                AskedFor(c.addresses[i], qtype) && Canonicalize(c.addresses[i].ip) == matching[k].ip
    {
      var j := MatchingFrom(c.addresses, qtype, k);
      assert AskedFor(c.addresses[j], qtype);
    }
    hide Matching;
    if DnsValidate(e, s, l, c, qtype).Success? {
      var ips := DnsValidate(e, s, l, c, qtype).value.0;
      if |ips| != l.maxResponseRecords {
        assert ips == Ips(matching);
        forall i | 0 <= i < |c.addresses| && AskedFor(c.addresses[i],
            qtype) ensures Canonicalize(c.addresses[i].ip) in ips {
          var k :| 0 <= k < |matching| && matching[k].ip == Canonicalize(c.addresses[i].ip);
          assert ips[k] == matching[k].ip;
        }
      }
    }
  }

  lemma {:induction false} AcceptableCovers(e: Engine, l: Limits, records: seq<Record>, i: nat)
    requires i < |records|
    requires var ip := Canonicalize(records[i].ip); TypeOf(ip) in l.allowedRecordTypes && AddressPermitted(e, ip)
    ensures Record(Canonicalize(records[i].ip), records[i].ttlSecs) in Acceptable(e, l, records)
  {
    hide AddressPermitted, Canonicalize;
    if i > 0 {
      AcceptableCovers(e, l, records[1..], i - 1);
    }
  }

  /** A fresh CONNECT resolution misses an acceptable address only for smaller
      ones that fill the limit on records. */
  lemma ConnectKeepsSmallest(e: Engine, l: Limits, c: Chain, i: nat)
    requires i < |c.addresses|
    requires var ip := Canonicalize(c.addresses[i].ip); TypeOf(ip) in l.allowedRecordTypes && AddressPermitted(e, ip)
    ensures var ip, kept := Canonicalize(c.addresses[i].ip), ConnectValidate(e, l, c);
            || ip in Ips(kept)
            || (|kept| == l.maxResponseRecords && forall k | 0 <= k < |kept| :: IpLess(kept[k].ip, ip))
  {
    hide AddressPermitted, Canonicalize, IpLess;
    var ip := Canonicalize(c.addresses[i].ip);
    var accepted := Acceptable(e, l, c.addresses);
    AcceptableCovers(e, l, c.addresses, i);
    var j :| 0 <= j < |accepted| && accepted[j] == Record(ip, c.addresses[i].ttlSecs);
    assert Ips(accepted)[j] == ip;
    SortDedupMeaning(accepted);
    hide Acceptable, SortDedup;
    var sorted := SortDedup(accepted);
    assert ip in Ips(accepted);
    assert ip in Ips(sorted);
    var m :| 0 <= m < |Ips(sorted)| && Ips(sorted)[m] == ip;
    var kept := ConnectValidate(e, l, c);
    if m < |kept| {
      assert Ips(kept)[m] == ip;
    } else {
      forall k | 0 <= k < |kept| ensures IpLess(kept[k].ip, ip) {
        assert Ips(sorted)[k] == kept[k].ip;
      }
    }
  }

  lemma {:induction false} AcceptableFrom(e: Engine, l: Limits, records: seq<Record>, i: nat) returns (j: nat)
    requires i < |Acceptable(e, l, records)|
    ensures j < |records|
    ensures var r := Acceptable(e, l, records)[i];
            && r == Record(Canonicalize(records[j].ip), records[j].ttlSecs)
            && TypeOf(r.ip) in l.allowedRecordTypes && AddressPermitted(e, r.ip)
  {
    var ip := Canonicalize(records[0].ip);
    var here := TypeOf(ip) in l.allowedRecordTypes && AddressPermitted(e, ip);
    if here && i == 0 {
      j := 0;
    } else {
      j := AcceptableFrom(e, l, records[1..], if here then i - 1 else i);
      j := j + 1;
    }
  }

  lemma {:induction false} InsertRecordMember(x: Record, s: seq<Record>, y: Record)
    requires y in InsertRecord(x, s)
    ensures y == x || y in s
  {
    if s != [] && s[0].ip != x.ip && !IpLess(x.ip, s[0].ip) && y != s[0] {
      InsertRecordMember(x, s[1..], y);
    }
  }

  lemma {:induction false} SortDedupMember(records: seq<Record>, y: Record)
    requires y in SortDedup(records)
    ensures y in records
  {
    if records != [] {
      var init, last := records[..|records| - 1], records[|records| - 1];
      InsertRecordMember(last, SortDedup(init), y);
      if y != last {
        SortDedupMember(init, y);
      }
    }
  }

  /** Everything a fresh CONNECT resolution pins may be pinned. */
  lemma ConnectPinsArePinnable(e: Engine, s: Snapshot, l: Limits, c: Chain, k: nat)
    requires HopsAllowed(e, s, c) && k < |ConnectValidate(e, l, c)|
    ensures var r := ConnectValidate(e, l, c)[k];
            Pinnable(e, s, l, c, r.ip, CapTtl(e, r.ttlSecs)) && |ConnectValidate(e, l, c)| <= l.maxResponseRecords
  {
    var accepted := Acceptable(e, l, c.addresses);
    var r := ConnectValidate(e, l, c)[k];
    assert r == SortDedup(accepted)[k];
    SortDedupMember(accepted, r);
    var i :| 0 <= i < |accepted| && accepted[i] == r;
    var j := AcceptableFrom(e, l, c.addresses, i);
    assert Backs(c.addresses[j], r.ip, CapTtl(e, r.ttlSecs));
    assert CutFrom(c.addresses[j], e.maxTtlSecs, CapTtl(e, r.ttlSecs));
  }

  /** `SortDedup` as a property: strictly increasing addresses, none lost, and
      for each address the first record that names it. */
  lemma {:induction false} SortDedupMeaning(records: seq<Record>)
    ensures StrictlySorted(Ips(SortDedup(records)))
    ensures forall ip :: ip in Ips(SortDedup(records)) <==> ip in Ips(records)
    ensures forall y | y in SortDedup(records) :: IsFirst(records, y)
  {
    if records == [] {
      NoneSorted();
    } else {
      var init, last := records[..|records| - 1], records[|records| - 1];
      SortDedupMeaning(init);
      assert records == init + [last];
      IpsConcat(init, last);
      InsertRecordIps(last, SortDedup(init));
      InsertKeepsOrder(last.ip, Ips(SortDedup(init)));
      forall ip ensures ip in Ips(SortDedup(records)) <==> ip in Ips(records) {
        InsertMember(last.ip, Ips(SortDedup(init)), ip);
      }
      forall y | y in SortDedup(records) ensures IsFirst(records, y) {
        FirstOfMore(init, last, y);
      }
    }
  }

  lemma NoneSorted()
    ensures StrictlySorted(Ips([]))
  {
  }

  ghost predicate IsFirst(records: seq<Record>, y: Record) {
    exists i | 0 <= i < |records| :: records[i] == y && forall j | 0 <= j < i :: records[j].ip != y.ip
  }

  lemma IpsConcat(init: seq<Record>, last: Record)
    ensures Ips(init + [last]) == Ips(init) + [last.ip]
  {
  }

  lemma IpsCons(x: Record, s: seq<Record>)
    ensures Ips([x] + s) == [x.ip] + Ips(s)
  {
  }

  lemma {:induction false} InsertRecordIps(x: Record, s: seq<Record>)
    ensures Ips(InsertRecord(x, s)) == Insert(x.ip, Ips(s))
  {
    hide IpLess, Ips;
    if s == [] {
      IpsCons(x, []);
    } else {
      var head, tail := s[0], s[1..];
      assert s == [head] + tail;
      IpsCons(head, tail);
      assert Ips(s)[1..] == Ips(tail);
      if IpLess(x.ip, head.ip) {
        IpsCons(x, s);
      } else if x.ip != head.ip {
        InsertRecordIps(x, tail);
        IpsCons(head, InsertRecord(x, tail));
      }
    }
  }

  lemma {:induction false} InsertRecordKeeps(x: Record, s: seq<Record>, y: Record)
    requires y in InsertRecord(x, s) && y !in s
    requires StrictlySorted(Ips(s))
    ensures y == x && x.ip !in Ips(s)
  {
    InsertRecordMember(x, s, y);
    if s != [] {
      assert s == [s[0]] + s[1..] && Ips(s)[1..] == Ips(s[1..]) && Ips(s)[0] == s[0].ip;
      IpLessTotal(x.ip, s[0].ip);
      if IpLess(x.ip, s[0].ip) {
        forall k | 0 <= k < |s| ensures Ips(s)[k] != x.ip {
          if k > 0 {
            IpLessTransitive(x.ip, Ips(s)[0], Ips(s)[k]);
            IpLessTotal(x.ip, x.ip);
          }
        }
      } else if s[0].ip != x.ip {
        InsertRecordKeeps(x, s[1..], y);
      }
    }
  }

  lemma FirstOfMore(init: seq<Record>, last: Record, y: Record)
    requires y in InsertRecord(last, SortDedup(init))
    requires StrictlySorted(Ips(SortDedup(init)))
    requires forall ip :: ip in Ips(SortDedup(init)) <==> ip in Ips(init)
    requires forall z | z in SortDedup(init) :: IsFirst(init, z)
    ensures IsFirst(init + [last], y)
  {
    var all := init + [last];
    if y in SortDedup(init) {
      var i :| 0 <= i < |init| && init[i] == y && forall j | 0 <= j < i :: init[j].ip != y.ip;
      assert all[i] == y && forall j | 0 <= j < i :: all[j] == init[j];
    } else {
      InsertRecordKeeps(last, SortDedup(init), y);
      forall j | 0 <= j < |init| ensures all[j].ip != y.ip {
        assert Ips(init)[j] == init[j].ip && init[j].ip in Ips(init);
      }
      assert all[|init|] == y;
    }
  }

  // ---- Sort, then drop repeats ---------------------------------------------

  /** Insertion behind every record whose address is not greater. */
  function Place(x: Record, s: seq<Record>): (r: seq<Record>) {
    if s == [] then [x]
    else if IpLess(x.ip, s[0].ip) then [x] + s
    else [s[0]] + Place(x, s[1..])
  }

  /** The library's stable sort by address. */
  function StableSort(records: seq<Record>): (r: seq<Record>) {
    if records == [] then [] else Place(records[|records| - 1], StableSort(records[..|records| - 1]))
  }

  /** Of neighbours with the same address the first stays. */
  function DropRepeats(s: seq<Record>): (r: seq<Record>)
    ensures s != [] ==> r != [] && r[0] == s[0]
    decreases |s|
  {
    if |s| < 2 then s
    else if s[0].ip == s[1].ip then DropRepeats([s[0]] + s[2..])
    else [s[0]] + DropRepeats(s[1..])
  }

  ghost predicate Ascending(s: seq<Record>) {
    forall i, j | 0 <= i < j < |s| :: !IpLess(s[j].ip, s[i].ip)
  }

  lemma AscendingTail(s: seq<Record>)
    requires s != [] && Ascending(s)
    ensures Ascending(s[1..])
    ensures |s| > 1 ==> Ascending([s[0]] + s[2..])
  {
    hide IpLess;
    if |s| > 1 {
      var t := [s[0]] + s[2..];
      forall i, j | 0 <= i < j < |t| ensures !IpLess(t[j].ip, t[i].ip) {
        assert t[j] == s[j + 1] && (i == 0 ==> t[i] == s[0]) && (i > 0 ==> t[i] == s[i + 1]);
      }
    }
  }

  lemma {:induction false} PlaceMember(x: Record, s: seq<Record>, y: Record)
    ensures y in Place(x, s) <==> y == x || y in s
  {
    if s != [] {
      assert s == [s[0]] + s[1..];
      PlaceMember(x, s[1..], y);
    }
  }

  lemma ConsAscending(x: Record, s: seq<Record>)
    requires Ascending(s) && forall y | y in s :: !IpLess(y.ip, x.ip)
    ensures Ascending([x] + s)
  {
    hide IpLess;
  }

  lemma NotGreater(a: IpAddr, b: IpAddr, c: IpAddr)
    requires IpLess(a, b) && !IpLess(c, b)
    ensures !IpLess(c, a)
  {
    IpLessTotal(b, c);
    if IpLess(c, a) {
      IpLessTransitive(c, a, b);
    }
  }

  lemma {:induction false} PlaceAscending(x: Record, s: seq<Record>)
    requires Ascending(s)
    ensures Ascending(Place(x, s))
  {
    hide IpLess;
    if s != [] {
      var head, tail := s[0], s[1..];
      assert s == [head] + tail;
      AscendingTail(s);
      if IpLess(x.ip, head.ip) {
        forall y | y in s ensures !IpLess(y.ip, x.ip) {
          var k :| 0 <= k < |s| && s[k] == y;
          IpLessTotal(y.ip, head.ip);
          NotGreater(x.ip, head.ip, y.ip);
        }
        ConsAscending(x, s);
      } else {
        PlaceAscending(x, tail);
        forall y | y in Place(x, tail) ensures !IpLess(y.ip, head.ip) {
          PlaceMember(x, tail, y);
        }
        ConsAscending(head, Place(x, tail));
      }
    }
  }

  lemma {:induction false} StableSortAscending(records: seq<Record>)
    ensures Ascending(StableSort(records))
  {
    if records != [] {
      StableSortAscending(records[..|records| - 1]);
      PlaceAscending(records[|records| - 1], StableSort(records[..|records| - 1]));
    }
  }

  lemma DropRepeated(a: Record, b: Record, rest: seq<Record>)
    requires a.ip == b.ip
    ensures DropRepeats([a] + ([b] + rest)) == DropRepeats([a] + rest)
  {
    assert ([a] + ([b] + rest))[2..] == rest;
  }

  lemma DropAfter(a: Record, s: seq<Record>)
    requires s != [] && s[0].ip != a.ip
    ensures DropRepeats([a] + s) == [a] + DropRepeats(s)
  {
    assert ([a] + s)[1..] == s;
  }

  lemma PlaceBehind(x: Record, a: Record, s: seq<Record>)
    requires !IpLess(x.ip, a.ip)
    ensures Place(x, [a] + s) == [a] + Place(x, s)
  {
    assert ([a] + s)[1..] == s;
  }

  lemma InsertBehind(x: Record, a: Record, s: seq<Record>)
    requires !IpLess(x.ip, a.ip) && x.ip != a.ip
    ensures InsertRecord(x, [a] + s) == [a] + InsertRecord(x, s)
  {
    assert ([a] + s)[1..] == s;
  }

  /** Placing a record and dropping repeats is inserting it where it is new. */
  lemma {:induction false} PlaceThenDrop(x: Record, s: seq<Record>)
    requires Ascending(s)
    ensures DropRepeats(Place(x, s)) == InsertRecord(x, DropRepeats(s))
    decreases |s|
  {
    hide IpLess, DropRepeats;
    if s == [] {
      NothingToDrop([x]);
      NothingToDrop(s);
    } else {
      var head, tail := s[0], s[1..];
      assert s == [head] + tail;
      AscendingTail(s);
      if IpLess(x.ip, head.ip) {
        IpLessTotal(x.ip, head.ip);
        DropAfter(x, s);
      } else {
        PlaceBehind(x, head, tail);
        if tail == [] {
          NothingToDrop(s);
          NothingToDrop([x]);
          if x.ip == head.ip {
            DropRepeated(head, x, []);
            assert [x] + [] == [x] && [head] + [] == s;
          } else {
            DropAfter(head, [x]);
            InsertBehind(x, head, []);
          }
        } else if head.ip == tail[0].ip {
          var rest := tail[1..];
          assert tail == [tail[0]] + rest && s[2..] == rest;
          PlaceThenDrop(x, [head] + rest);
          PlaceBehind(x, head, rest);
          PlaceBehind(x, tail[0], rest);
          DropRepeated(head, tail[0], rest);
          DropRepeated(head, tail[0], Place(x, rest));
        } else if x.ip == head.ip {
          assert !IpLess(tail[0].ip, head.ip) by { assert s[1] == tail[0]; }
          IpLessTotal(head.ip, tail[0].ip);
          DropRepeated(head, x, tail);
        } else {
          PlaceThenDrop(x, tail);
          DropAfter(head, Place(x, tail));
          DropAfter(head, tail);
          InsertBehind(x, head, DropRepeats(tail));
        }
      }
    }
  }

  lemma NothingToDrop(s: seq<Record>)
    requires |s| < 2
    ensures DropRepeats(s) == s
  {
  }

  /** The two library calls together are `SortDedup`. */
  lemma {:induction false} SortThenDrop(records: seq<Record>)
    ensures DropRepeats(StableSort(records)) == SortDedup(records)
  {
    hide Place, InsertRecord, DropRepeats;
    if records == [] {
      NothingToDrop(records);
    } else {
      var init, last := records[..|records| - 1], records[|records| - 1];
      SortThenDrop(init);
      StableSortAscending(init);
      PlaceThenDrop(last, StableSort(init));
    }
  }

  /** `dedup_by` on the address. */
  method DedupByAddress(s: seq<Record>) returns (r: seq<Record>)
    ensures r == DropRepeats(s)
  {
    if s == [] {
      return [];
    }
    r := [s[0]];
    var i := 1;
    assert s == [s[0]] + s[1..];
    while i < |s|
      invariant 1 <= i <= |s| && r != []
      invariant DropRepeats(s) == r[..|r| - 1] + DropRepeats([r[|r| - 1]] + s[i..])
    {
      var kept := r[|r| - 1];
      assert s[i..] == [s[i]] + s[i + 1..];
      if s[i].ip == kept.ip {
        DropRepeated(kept, s[i], s[i + 1..]);
      } else {
        DropAfter(kept, s[i..]);
        assert r[..|r| - 1] + [kept] == r;
        r := r + [s[i]];
        assert r[..|r| - 1] == r[..|r| - 2] + [kept];
      }
      i := i + 1;
    }
    assert s[i..] == [] && [r[|r| - 1]] + [] == [r[|r| - 1]];
    NothingToDrop([r[|r| - 1]]);
  }

  // ---- The brokers' loops --------------------------------------------------

  lemma {:induction false} MatchingAppend(records: seq<Record>, r: Record, qtype: RecordType)
    ensures Matching(records + [r], qtype) ==
            Matching(records, qtype) +
            (if TypeOf(Canonicalize(r.ip)) == qtype then [r.(ip := Canonicalize(r.ip))] else [])
  {
    if records != [] {
      MatchingAppend(records[1..], r, qtype);
      assert (records + [r])[1..] == records[1..] + [r];
    }
  }

  lemma {:induction false} AcceptableAppend(e: Engine, l: Limits, records: seq<Record>, r: Record)
    ensures Acceptable(e, l, records + [r]) ==
            Acceptable(e, l, records) +
            (var ip := Canonicalize(r.ip);
             if TypeOf(ip) in l.allowedRecordTypes && AddressPermitted(e, ip) then [r.(ip := ip)] else [])
  {
    if records != [] {
      AcceptableAppend(e, l, records[1..], r);
      assert (records + [r])[1..] == records[1..] + [r];
    }
  }

  /** The positions of the records of the asked type. */
  ghost function AskedAt(records: seq<Record>, qtype: RecordType): (at: seq<nat>)
    ensures forall k | 0 <= k < |at| :: at[k] < |records| && AskedFor(records[at[k]], qtype)
    ensures forall j, k | 0 <= j < k < |at| :: at[j] < at[k]
    ensures forall i: nat | i < |records| && AskedFor(records[i], qtype) :: i in at
  {
    if records == [] then []
    else
      var n := |records| - 1;
      var init := AskedAt(records[..n], qtype);
      assert forall i | 0 <= i < n :: records[..n][i] == records[i];
      if AskedFor(records[n], qtype) then init + [n] else init
  }

  lemma {:induction false} MatchingPositions(records: seq<Record>, qtype: RecordType)
    ensures var at, matching := AskedAt(records, qtype), Matching(records, qtype);
            && |at| == |matching|
            && forall k | 0 <= k < |at| ::
                 matching[k] == Record(Canonicalize(records[at[k]].ip), records[at[k]].ttlSecs)
  {
    if records != [] {
      var n := |records| - 1;
      var init := records[..n];
      MatchingPositions(init, qtype);
      assert records == init + [records[n]];
      MatchingAppend(init, records[n], qtype);
      hide Matching, Canonicalize;
    }
  }

  /** The answer to a DNS query: the canonical addresses of the asked type in answer
      order, up to the limit on records, with the least TTL among them, cut to the
      policy's. */
  lemma DnsAnswerInOrder(e: Engine, s: Snapshot, l: Limits, c: Chain, qtype: RecordType)
    requires DnsValidate(e, s, l, c, qtype).Success?
    ensures var (ips, ttl) := DnsValidate(e, s, l, c, qtype).value;
            var at := AskedAt(c.addresses, qtype);
            && |ips| == (if |at| < l.maxResponseRecords then |at| else l.maxResponseRecords)
            && (forall k | 0 <= k < |ips| ::
                  var r := c.addresses[at[k]]; ips[k] == Canonicalize(r.ip) && ttl <= r.ttlSecs)
            && (if ips == [] then ttl == 0
                else exists k | 0 <= k < |ips| :: CutFrom(c.addresses[at[k]], e.maxTtlSecs, ttl))
  {
    MatchingPositions(c.addresses, qtype);
    hide Matching, AskedAt, HopVerdict, Canonicalize, AddressPermitted;
    var at, matching := AskedAt(c.addresses, qtype), Matching(c.addresses, qtype);
    var kept := Truncate(matching, l.maxResponseRecords);
    var ttl := CapTtl(e, MinTtl(kept));
    assert forall k | 0 <= k < |kept| :: kept[k] == matching[k];
    if kept != [] {
      var least :| 0 <= least < |kept| && MinTtl(kept) == kept[least].ttlSecs;
      assert CutFrom(c.addresses[at[least]], e.maxTtlSecs, ttl);
    }
  }

  /** The hop loop of the DNS broker: the first offending name decides. */
  method CheckHops(e: Engine, s: Snapshot, names: seq<string>) returns (r: Option<ResponseCode>)
    ensures r == HopVerdict(e, s, names)
  {
    var i := 0;
    assert names[0..] == names;
    while i < |names|
      invariant 0 <= i <= |names|
      invariant HopVerdict(e, s, names) == HopVerdict(e, s, names[i..])
    {
      assert names[i..][1..] == names[i + 1..];
      match EvaluateDomainName(e, s, names[i]) {
        case Failure(_) => return Some(FormErr);
        case Success(allowed) =>
          if !allowed {
            return Some(Refused);
          }
      }
      i := i + 1;
    }
    return None;
  }

  method CollectMatching(records: seq<Record>, qtype: RecordType) returns (matching: seq<Record>)
    ensures matching == Matching(records, qtype)
  {
    matching := [];
    var i := 0;
    while i < |records|
      invariant 0 <= i <= |records|
      invariant matching == Matching(records[..i], qtype)
    {
      var record := records[i];
      MatchingAppend(records[..i], record, qtype);
      assert records[..i + 1] == records[..i] + [record];
      if TypeOf(Canonicalize(record.ip)) == qtype {
        matching := matching + [record.(ip := Canonicalize(record.ip))];
      }
      i := i + 1;
    }
    assert records[..i] == records;
  }

  /** The part of `resolve_and_validate` between the upstream answer and the
      first cache write. */
  method ValidateDnsAnswer(e: Engine, s: Snapshot, l: Limits, c: Chain, qtype: RecordType)
    returns (r: Result<(seq<IpAddr>, nat), ResponseCode>)
    ensures r == DnsValidate(e, s, l, c, qtype)
  {
    hide HopVerdict, Matching, AddressPermitted, MinTtl;
    var hop := CheckHops(e, s, NamesToValidate(c));
    if hop.Some? {
      return Failure(hop.value);
    }
    var matching := CollectMatching(c.addresses, qtype);
    var i := 0;
    while i < |matching|
      invariant 0 <= i <= |matching|
      invariant forall k | 0 <= k < i :: AddressPermitted(e, matching[k].ip)
    {
      if !AddressPermitted(e, matching[i].ip) {
        return Failure(Refused);
      }
      i := i + 1;
    }
    if |matching| > l.maxResponseRecords {
      matching := matching[..l.maxResponseRecords];
    }
    return Success((Ips(matching), CapTtl(e, MinTtl(matching))));
  }

  /** The part of `fresh_resolve` between the hop check and the first cache
      write: collect, sort, drop duplicates, truncate. */
  method CollectValidated(e: Engine, l: Limits, c: Chain) returns (validated: seq<Record>)
    ensures validated == ConnectValidate(e, l, c)
  {
    validated := [];
    var i := 0;
    while i < |c.addresses|
      invariant 0 <= i <= |c.addresses|
      invariant validated == Acceptable(e, l, c.addresses[..i])
    {
      var record := c.addresses[i];
      AcceptableAppend(e, l, c.addresses[..i], record);
      assert c.addresses[..i + 1] == c.addresses[..i] + [record];
      var ip := Canonicalize(record.ip);
      if TypeOf(ip) in l.allowedRecordTypes && AddressPermitted(e, ip) {
        validated := validated + [record.(ip := ip)];
      }
      i := i + 1;
    }
    assert c.addresses[..i] == c.addresses;
    SortThenDrop(validated);
    validated := StableSort(validated);
    validated := DedupByAddress(validated);
    if |validated| > l.maxResponseRecords {
      validated := validated[..l.maxResponseRecords];
    }
  }

  datatype Answer = CnameRecord(holder: string, target: string) | AddressRecord(holder: string, ip: IpAddr)

  /** DNS names compare without letter case. */
  predicate SameName(a: string, b: string) {
    Lower(a) == Lower(b)
  }

  /** Following CNAME records in order from one name leads to another. */
  ghost predicate Leads(answers: seq<Answer>, from: string, to: string) {
    if answers == [] then SameName(from, to)
    else
      answers[0].CnameRecord? && SameName(answers[0].holder, from) && Leads(answers[1..], answers[0].target, to)
  }

  lemma {:induction false} LeadsOn(answers: seq<Answer>, from: string, mid: string, next: string, skip: bool)
    requires Leads(answers, from, mid)
    requires skip <==> SameName(mid, next)
    ensures Leads(if skip then answers else answers + [CnameRecord(mid, next)], from, next)
  {
    if answers != [] {
      LeadsOn(answers[1..], answers[0].target, mid, next, skip);
      if !skip {
        assert (answers + [CnameRecord(mid, next)])[1..] == answers[1..] + [CnameRecord(mid, next)];
      }
    } else if !skip {
      var one := [CnameRecord(mid, next)];
      assert answers + one == one && one[1..] == [];
    }
  }

  /** An answer section: `n` CNAME records that lead from the queried name to
      the final owner, each target a validated hop, then one address record per
      pinned address at the final owner. */
  ghost predicate AnswerSection(answers: seq<Answer>, n: nat, name: string, c: Chain, ips: seq<IpAddr>) {
    && |answers| == n + |ips|
    && Leads(answers[..n], name, c.finalName)
    && (forall i | 0 <= i < n :: answers[i].CnameRecord? && answers[i].target in NamesToValidate(c))
    && (forall i | 0 <= i < |ips| :: answers[n + i] == AddressRecord(c.finalName, ips[i]))
  }

  method BuildAnswers(name: string, c: Chain, ips: seq<IpAddr>) returns (answers: seq<Answer>)
    ensures exists n: nat :: AnswerSection(answers, n, name, c, ips)
  {
    var links := BuildLinks(name, c);
    hide Leads;
    answers := links;
    var i := 0;
    while i < |ips|
      invariant 0 <= i <= |ips|
      invariant |answers| == |links| + i && answers[..|links|] == links
      invariant forall k | 0 <= k < i :: answers[|links| + k] == AddressRecord(c.finalName, ips[k])
    {
      answers := answers + [AddressRecord(c.finalName, ips[i])];
      i := i + 1;
    }
    assert forall k | 0 <= k < |links| :: answers[k] == answers[..|links|][k];
    assert AnswerSection(answers, |links|, name, c, ips);
  }

  /** The CNAME part, each hop under its own owner name. */
  method BuildLinks(name: string, c: Chain) returns (links: seq<Answer>)
    ensures Leads(links, name, c.finalName)
    ensures forall k | 0 <= k < |links| :: links[k].CnameRecord? && links[k].target in NamesToValidate(c)
  {
    links := [];
    var owners := [name] + c.cnames;
    var targets := NamesToValidate(c);
    var i := 0;
    assert Leads(links, name, owners[0]);
    hide Leads, SameName;
    while i < |owners|
      invariant 0 <= i <= |owners| == |targets|
      invariant Leads(links, name, if i < |owners| then owners[i] else c.finalName)
      invariant forall k | 0 <= k < |links| :: links[k].CnameRecord? && links[k].target in targets
    {
      LeadsOn(links, name, owners[i], targets[i], SameName(owners[i], targets[i]));
      assert i + 1 < |owners| ==> owners[i + 1] == targets[i];
      if !SameName(owners[i], targets[i]) {
        links := links + [CnameRecord(owners[i], targets[i])];
      }
      i := i + 1;
    }
  }
}
