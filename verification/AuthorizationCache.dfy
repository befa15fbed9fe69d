/** The expiring `(name, address)` authorization cache: a bounded map that
    refines the unbounded last-write-wins map. */
module AuthorizationCache {
  import opened Prelude
  import opened Address

  datatype Key = Key(name: string, ip: IpAddr)
  datatype Pin = Pin(expiresAt: nat, revision: nat)
  type Entries = map<Key, Pin>

  /** `(String, IpAddr)` as Rust compares it. */
  predicate KeyLess(a: Key, b: Key) {
    if a.name == b.name then IpLess(a.ip, b.ip) else Less(Codes(a.name), Codes(b.name))
  }

  lemma KeyLessTotal(a: Key, b: Key)
    ensures KeyLess(a, b) || a == b || KeyLess(b, a)
    ensures !(KeyLess(a, b) && KeyLess(b, a)) && !KeyLess(a, a)
  {
    IpLessTotal(a.ip, b.ip);
    IpLessTotal(a.ip, a.ip);
    LessTotal(Codes(a.name), Codes(b.name));
    if Codes(a.name) == Codes(b.name) {
      CodesInjective(a.name, b.name);
    }
    if Less(Codes(a.name), Codes(b.name)) {
      LessStrict(Codes(a.name), Codes(b.name));
    }
  }

  lemma KeyLessTransitive(a: Key, b: Key, c: Key)
    requires KeyLess(a, b) && KeyLess(b, c)
    ensures KeyLess(a, c)
  {
    if a.name == b.name == c.name {
      IpLessTransitive(a.ip, b.ip, c.ip);
    } else if a.name != b.name && b.name != c.name {
      LessTransitive(Codes(a.name), Codes(b.name), Codes(c.name));
      LessStrict(Codes(a.name), Codes(c.name));
    }
  }

  /** Eviction order: earliest expiry first, ties by key. */
  predicate EvictBefore(m: Entries, a: Key, b: Key)
    requires a in m && b in m
  {
    m[a].expiresAt < m[b].expiresAt || (m[a].expiresAt == m[b].expiresAt && KeyLess(a, b))
  }

  lemma EvictBeforeTransitive(m: Entries, a: Key, b: Key, c: Key)
    requires a in m && b in m && c in m && EvictBefore(m, a, b) && EvictBefore(m, b, c)
    ensures EvictBefore(m, a, c)
  {
    if m[a].expiresAt == m[b].expiresAt == m[c].expiresAt {
      KeyLessTransitive(a, b, c);
    }
  }

  ghost predicate IsVictim(m: Entries, keys: set<Key>, k: Key)
    requires keys <= m.Keys
  {
    k in keys && forall j | j in keys && j != k :: EvictBefore(m, k, j)
  }

  lemma {:induction false} VictimExists(m: Entries, keys: set<Key>)
    requires keys <= m.Keys && keys != {}
    ensures exists k :: IsVictim(m, keys, k)
    decreases |keys|
  {
    var x :| x in keys;
    if keys == {x} {
      assert IsVictim(m, keys, x);
    } else {
      VictimExists(m, keys - {x});
      var k :| IsVictim(m, keys - {x}, k);
      Challenge(m, keys - {x}, k, x);
      assert keys - {x} + {x} == keys;
    }
  }

  /** The minimum over one more key. */
  lemma Challenge(m: Entries, keys: set<Key>, k: Key, x: Key)
    requires keys + {x} <= m.Keys && x !in keys && IsVictim(m, keys, k)
    ensures IsVictim(m, keys + {x}, if EvictBefore(m, x, k) then x else k)
    ensures IsVictim(m, keys + {x}, x) || IsVictim(m, keys + {x}, k)
  {
    KeyLessTotal(x, k);
    hide KeyLess;
    if EvictBefore(m, x, k) {
      forall j | j in keys + {x} && j != x ensures EvictBefore(m, x, j) {
        if j != k {
          EvictBeforeTransitive(m, x, k, j);
        }
      }
    }
  }

  lemma VictimUnique(m: Entries, keys: set<Key>, a: Key, b: Key)
    requires keys <= m.Keys && IsVictim(m, keys, a) && IsVictim(m, keys, b)
    ensures a == b
  {
    KeyLessTotal(a, b);
  }

  /** The entry that makes room: expires no later than any other. */
  ghost function Victim(m: Entries): (k: Key)
    requires m.Keys != {}
    ensures IsVictim(m, m.Keys, k)
  {
    VictimExists(m, m.Keys);
    var k :| IsVictim(m, m.Keys, k);
    k
  }

  /** The unexpired part. */
  function Live(m: Entries, now: nat): (r: Entries) {
    map k | k in m && m[k].expiresAt > now :: m[k]
  }

  predicate NeedsRoom(live: Entries, key: Key, capacity: nat) {
    key !in live && |live| >= capacity
  }

  /** `authorize_for_revision` on a cache of positive capacity. */
  ghost function Authorize(m: Entries, capacity: nat, key: Key, now: nat, ttl: nat, revision: nat): (r: Entries)
    requires capacity > 0
    ensures r.Keys <= m.Keys + {key}
    ensures key in r && r[key] == Pin(now + ttl, revision)
    ensures forall k | k in r && k != key :: k in m && r[k] == m[k] && m[k].expiresAt > now
    ensures |m| <= capacity ==> |r| <= capacity
  {
    var live := Live(m, now);
    LiveSize(m, now);
    var room := if NeedsRoom(live, key, capacity) then live - {Victim(live)} else live;
    RoomSize(live, room, key, Pin(now + ttl, revision), capacity);
    room[key := Pin(now + ttl, revision)]
  }

  lemma LiveSize(m: Entries, now: nat)
    ensures |Live(m, now)| <= |m|
  {
    var live := Live(m, now);
    assert live.Keys <= m.Keys;
    assert m.Keys == live.Keys + (m.Keys - live.Keys);
  }

  lemma RoomSize(live: Entries, room: Entries, key: Key, pin: Pin, capacity: nat)
    requires capacity > 0
    requires room == if NeedsRoom(live, key, capacity) then live - {Victim(live)} else live
    ensures |live| <= capacity ==> |room[key := pin]| <= capacity
  {
    var r := room[key := pin];
    assert r.Keys == room.Keys + {key};
    if NeedsRoom(live, key, capacity) {
      assert room.Keys == live.Keys - {Victim(live)};
    } else if key in live {
      assert r.Keys == live.Keys;
    }
  }

  ghost function LiveAddresses(m: Entries, name: string, revision: nat, now: nat): (r: set<IpAddr>) {
    set k | k in m && m[k].expiresAt > now && k.name == name && m[k].revision == revision :: k.ip
  }

  /** `authorized_addresses_for_revision`: exactly the live addresses of that
      name and revision, sorted and duplicate-free. */
  ghost function Lookup(m: Entries, name: string, revision: nat, now: nat): (r: seq<IpAddr>)
    ensures StrictlySorted(r)
    ensures forall ip :: ip in r <==>
              Key(name, ip) in m && m[Key(name, ip)].expiresAt > now && m[Key(name, ip)].revision == revision
  {
    var r := Sorted(LiveAddresses(m, name, revision, now));
    assert forall ip :: ip in r <==> ip in Elements(r);
    r
  }

  // ---- Runs ----------------------------------------------------------------

  datatype Op =
    | Write(key: Key, now: nat, ttl: nat, revision: nat)
    | Read(name: string, revision: nat, now: nat)
    | Check(key: Key, now: nat)
    | Wipe(now: nat)

  /** `is_authorized` drops the entry it finds expired. */
  function DropIfExpired(m: Entries, key: Key, now: nat): (r: Entries) {
    if key in m && m[key].expiresAt <= now then m - {key} else m
  }

  ghost function Step(m: Entries, capacity: nat, op: Op): (r: Entries)
    requires capacity > 0
  {
    match op
    case Write(key, now, ttl, revision) => Authorize(m, capacity, key, now, ttl, revision)
    case Read(_, _, now) => Live(m, now)
    case Check(key, now) => DropIfExpired(m, key, now)
    case Wipe(_) => map[]
  }

  ghost function Bounded(ops: seq<Op>, capacity: nat): (m: Entries)
    requires capacity > 0
  {
    if ops == [] then map[] else Step(Bounded(ops[..|ops| - 1], capacity), capacity, ops[|ops| - 1])
  }

  /** The unbounded map after one operation. */
  function StepUnbounded(u: Entries, op: Op): (r: Entries) {
    match op
    case Write(key, now, ttl, revision) => u[key := Pin(now + ttl, revision)]
    case Wipe(_) => map[]
    case _ => u
  }

  /** Every write kept for ever: the last one for a key wins. */
  function Unbounded(ops: seq<Op>): (m: Entries) {
    if ops == [] then map[] else StepUnbounded(Unbounded(ops[..|ops| - 1]), ops[|ops| - 1])
  }

  ghost predicate OrderedOps(ops: seq<Op>) {
    forall i, j | 0 <= i < j < |ops| :: ops[i].now <= ops[j].now
  }

  /** Some write since the last wipe found no room among the live entries. */
  ghost predicate Evicted(ops: seq<Op>, capacity: nat)
    requires capacity > 0
  {
    if ops == [] then false
    else
      var init, op := ops[..|ops| - 1], ops[|ops| - 1];
      match op
      case Write(key, now, _, _) =>
        Evicted(init, capacity) || NeedsRoom(Live(Bounded(init, capacity), now), key, capacity)
      case Wipe(_) => false
      case _ => Evicted(init, capacity)
  }

  /** The same question asked of the unbounded map, which no eviction disturbs. */
  ghost predicate Overfull(ops: seq<Op>, capacity: nat) {
    if ops == [] then false
    else
      var init, op := ops[..|ops| - 1], ops[|ops| - 1];
      match op
      case Write(key, now, _, _) =>
        Overfull(init, capacity) || NeedsRoom(Live(Unbounded(init), now), key, capacity)
      case Wipe(_) => false
      case _ => Overfull(init, capacity)
  }

  ghost predicate Submap(a: Entries, b: Entries) {
    forall k | k in a :: k in b && a[k] == b[k]
  }

  /** At every time the cache is within capacity and a sub-map of the unbounded
      map: eviction and expiry only ever remove authorizations. */
  lemma {:induction false} CacheRefines(ops: seq<Op>, capacity: nat)
    requires capacity > 0
    ensures |Bounded(ops, capacity)| <= capacity
    ensures Submap(Bounded(ops, capacity), Unbounded(ops))
  {
    if ops != [] {
      var init, op := ops[..|ops| - 1], ops[|ops| - 1];
      CacheRefines(init, capacity);
      StepRefines(Bounded(init, capacity), Unbounded(init), capacity, op);
    }
  }

  lemma StepRefines(b: Entries, u: Entries, capacity: nat, op: Op)
    requires capacity > 0 && |b| <= capacity && Submap(b, u)
    ensures |Step(b, capacity, op)| <= capacity
    ensures Submap(Step(b, capacity, op), StepUnbounded(u, op))
  {
    hide Authorize;
    match op {
      case Write(_, _, _, _) =>
      case Read(_, _, now) => LiveSize(b, now);
      case Check(key, now) => DropSize(b, key, now);
      case Wipe(_) =>
    }
  }

  lemma DropSize(m: Entries, key: Key, now: nat)
    ensures |DropIfExpired(m, key, now)| <= |m|
  {
    var r := DropIfExpired(m, key, now);
    assert r.Keys <= m.Keys;
    assert m.Keys == r.Keys + (m.Keys - r.Keys);
  }

  lemma LiveOfLive(m: Entries, earlier: nat, t: nat)
    requires earlier <= t
    ensures Live(Live(m, earlier), t) == Live(m, t)
  {
  }

  lemma LiveOfUpdate(m: Entries, key: Key, pin: Pin, t: nat)
    ensures Live(m[key := pin], t) == if pin.expiresAt > t then Live(m, t)[key := pin] else Live(m, t) - {key}
  {
  }

  lemma LiveOfDrop(m: Entries, key: Key, now: nat, t: nat)
    requires now <= t
    ensures Live(DropIfExpired(m, key, now), t) == Live(m, t)
  {
  }

  /** Until an eviction the cache shows exactly what the unbounded map shows. */
  lemma {:induction false} ExactUntilEviction(ops: seq<Op>, capacity: nat, t: nat)
    requires capacity > 0 && OrderedOps(ops) && !Evicted(ops, capacity)
    requires ops != [] ==> ops[|ops| - 1].now <= t
    ensures Live(Bounded(ops, capacity), t) == Live(Unbounded(ops), t)
  {
    hide Live, NeedsRoom, Step, StepUnbounded;
    if ops != [] {
      var init, op := ops[..|ops| - 1], ops[|ops| - 1];
      if !op.Wipe? {
        assert init != [] ==> init[|init| - 1].now <= op.now;
        ExactUntilEviction(init, capacity, t);
      }
      StepExact(Bounded(init, capacity), Unbounded(init), capacity, op, t);
    }
  }

  lemma StepExact(b: Entries, u: Entries, capacity: nat, op: Op, t: nat)
    requires capacity > 0 && op.now <= t
    requires op.Wipe? || Live(b, t) == Live(u, t)
    requires op.Write? ==> !NeedsRoom(Live(b, op.now), op.key, capacity)
    ensures Live(Step(b, capacity, op), t) == Live(StepUnbounded(u, op), t)
  {
    hide Live, DropIfExpired;
    match op {
      case Write(key, now, ttl, revision) =>
        var pin := Pin(now + ttl, revision);
        assert Step(b, capacity, op) == Live(b, now)[key := pin];
        LiveOfUpdate(Live(b, now), key, pin, t);
        LiveOfUpdate(u, key, pin, t);
        LiveOfLive(b, now, t);
      case Read(_, _, now) => LiveOfLive(b, now, t);
      case Check(key, now) => LiveOfDrop(b, key, now, t);
      case Wipe(_) =>
    }
  }

  /** Operation `i` wrote this pin, and nothing since wrote the key or wiped the cache. */
  ghost predicate LastWrite(ops: seq<Op>, i: nat, key: Key, pin: Pin) {
    && i < |ops| && ops[i].Write? && ops[i].key == key && pin == Pin(ops[i].now + ops[i].ttl, ops[i].revision)
    && forall j | i < j < |ops| :: !ops[j].Wipe? && (ops[j].Write? ==> ops[j].key != key)
  }

  lemma WrittenLast(ops: seq<Op>, op: Op, key: Key, pin: Pin)
    ensures var all := ops + [op];
            (exists i: nat :: LastWrite(all, i, key, pin)) <==>
            if op.Write? && op.key == key then pin == Pin(op.now + op.ttl, op.revision)
            else !op.Wipe? && exists i: nat :: LastWrite(ops, i, key, pin)
  {
    var all := ops + [op];
    if i: nat :| LastWrite(ops, i, key, pin) {
      assert !op.Wipe? && !(op.Write? && op.key == key) ==> LastWrite(all, i, key, pin);
    }
    if i: nat :| LastWrite(all, i, key, pin) {
      assert all[|ops|] == op;
      assert forall j | 0 <= j < |ops| :: ops[j] == all[j];
      assert i < |ops| ==> LastWrite(ops, i, key, pin);
    }
    if op.Write? && op.key == key && pin == Pin(op.now + op.ttl, op.revision) {
      assert LastWrite(all, |ops|, key, pin);
    }
  }

  lemma {:induction false} UnboundedExactly(ops: seq<Op>, key: Key, pin: Pin)
    ensures key in Unbounded(ops) && Unbounded(ops)[key] == pin <==> exists i: nat :: LastWrite(ops, i, key, pin)
  {
    if ops != [] {
      var init, op := ops[..|ops| - 1], ops[|ops| - 1];
      UnboundedExactly(init, key, pin);
      assert ops == init + [op];
      WrittenLast(init, op, key, pin);
      hide LastWrite;
    }
  }

  /** What a lookup shows: only addresses whose last write since the last wipe was under
      that revision and has not run out; and, until something is evicted, all of them. */
  lemma LookupExactly(ops: seq<Op>, capacity: nat, name: string, revision: nat, t: nat, ip: IpAddr)
    requires capacity > 0 && OrderedOps(ops) && (ops != [] ==> ops[|ops| - 1].now <= t)
    ensures var written := exists i: nat, end: nat :: end > t && LastWrite(ops, i, Key(name, ip), Pin(end, revision));
            var found := ip in Lookup(Bounded(ops, capacity), name, revision, t);
            (found ==> written) && (!Evicted(ops, capacity) ==> (found <==> written))
  {
    hide LastWrite, Evicted, Bounded, Unbounded, Lookup, OrderedOps;
    var key, b, u := Key(name, ip), Bounded(ops, capacity), Unbounded(ops);
    CacheRefines(ops, capacity);
    if ip in Lookup(b, name, revision, t) {
      UnboundedExactly(ops, key, b[key]);
      assert b[key] == Pin(b[key].expiresAt, revision);
    }
    if i: nat, end: nat :| end > t && LastWrite(ops, i, key, Pin(end, revision)) {
      UnboundedExactly(ops, key, Pin(end, revision));
      if !Evicted(ops, capacity) {
        ExactUntilEviction(ops, capacity, t);
        assert key in Live(u, t);
        assert key in Live(b, t) && Live(b, t)[key] == u[key];
      }
    }
  }

  /** Whether anything is ever evicted can be read off the unbounded map: exactly
      when some write of an absent key meets a full set of live keys. */
  lemma {:induction false} EvictionExactly(ops: seq<Op>, capacity: nat)
    requires capacity > 0 && OrderedOps(ops)
    ensures Evicted(ops, capacity) <==> Overfull(ops, capacity)
  {
    if ops != [] {
      var init, op := ops[..|ops| - 1], ops[|ops| - 1];
      EvictionExactly(init, capacity);
      if op.Write? && !Evicted(init, capacity) {
        assert init != [] ==> init[|init| - 1].now <= op.now;
        ExactUntilEviction(init, capacity, op.now);
      }
    }
  }

  /** What an eviction removes: one entry, expiring no later than every entry
      that stays, and of those expiring together the least key. */
  lemma EvictionOrder(m: Entries, capacity: nat, key: Key, now: nat, ttl: nat, revision: nat)
    requires capacity > 0 && NeedsRoom(Live(m, now), key, capacity)
    ensures var live, r := Live(m, now), Authorize(m, capacity, key, now, ttl, revision);
            var gone := Victim(live);
            && gone in m && gone != key && r.Keys == live.Keys - {gone} + {key}
            && forall k | k in r && k != key ::
                 m[gone].expiresAt < m[k].expiresAt ||
                 (m[gone].expiresAt == m[k].expiresAt && KeyLess(gone, k))
  {
    var live := Live(m, now);
    var r := Authorize(m, capacity, key, now, ttl, revision);
    var gone := Victim(live);
    forall k | k in r && k != key
      ensures m[gone].expiresAt < m[k].expiresAt ||
              (m[gone].expiresAt == m[k].expiresAt && KeyLess(gone, k))
    {
      assert EvictBefore(live, gone, k);
    }
  }

  lemma NothingSorted()
    ensures StrictlySorted([])
  {
  }

  // ---- The cache object ----------------------------------------------------

  class AuthorizationCache {
    var entries: map<Key, Pin>
    const capacity: nat

    ghost predicate Valid()
      reads this
    {
      |entries| <= capacity && capacity > 0
    }

    /** `with_capacity`: zero is clamped to one. */
    constructor (capacity: nat)
      ensures entries == map[] && this.capacity == (if capacity == 0 then 1 else capacity) && Valid()
    {
      this.capacity := if capacity == 0 then 1 else capacity;
      entries := map[];
    }

    method AuthorizeForRevision(name: string, ip: IpAddr, ttl: nat, revision: nat, now: nat)
      requires Valid()
      modifies this
      ensures entries == Authorize(old(entries), capacity, Key(name, ip), now, ttl, revision)
      ensures Valid()
    {
      hide Live, Victim, IsVictim;
      LiveSize(entries, now);
      entries := Live(entries, now);
      var key := Key(name, ip);
      if key !in entries && |entries| >= capacity {
        var evict := FindVictim();
        entries := entries - {evict};
      }
      entries := entries[key := Pin(now + ttl, revision)];
      assert entries == Authorize(old(entries), capacity, key, now, ttl, revision);
    }

    /** The `min_by` over the hash map, in whatever order it is iterated. */
    method FindVictim() returns (evict: Key)
      requires entries.Keys != {}
      ensures evict == Victim(entries)
    {
      var left := entries.Keys;
      evict :| evict in left;
      left := left - {evict};
      ghost var seen := {evict};
      while left != {}
        invariant left !! seen && left + seen == entries.Keys
        invariant IsVictim(entries, seen, evict)
        decreases |left|
      {
        var k :| k in left;
        Challenge(entries, seen, evict, k);
        if EvictBefore(entries, k, evict) {
          evict := k;
        }
        left := left - {k};
        seen := seen + {k};
      }
      VictimUnique(entries, entries.Keys, evict, Victim(entries));
    }

    method IsAuthorized(name: string, ip: IpAddr, now: nat) returns (r: bool)
      requires Valid()
      modifies this
      ensures Valid() && entries == DropIfExpired(old(entries), Key(name, ip), now)
      ensures r <==> ip in Lookup(old(entries), name, 0, now)
    {
      var key := Key(name, ip);
      if key !in entries {
        return false;
      }
      if entries[key].expiresAt > now {
        return entries[key].revision == 0;
      }
      assert (entries - {key}).Keys == entries.Keys - {key};
      entries := entries - {key};
      return false;
    }

    method AuthorizedAddressesForRevision(name: string, revision: nat, now: nat)
      returns (addresses: seq<IpAddr>)
      requires Valid()
      modifies this
      ensures Valid() && entries == Live(old(entries), now)
      ensures addresses == Lookup(old(entries), name, revision, now)
    {
      LiveSize(entries, now);
      entries := Live(entries, now);
      addresses := Collect(name, revision);
      assert Elements(addresses) == Elements(Lookup(old(entries), name, revision, now));
      SortedUnique(addresses, Lookup(old(entries), name, revision, now));
    }

    /** The filter over the pruned map, collected and sorted. */
    method Collect(name: string, revision: nat) returns (addresses: seq<IpAddr>)
      ensures StrictlySorted(addresses)
      ensures forall a :: a in addresses <==> Key(name, a) in entries && entries[Key(name, a)].revision == revision
    {
      hide StrictlySorted, Insert;
      addresses := [];
      assert StrictlySorted(addresses) by {
        NothingSorted();
      }
      var left := entries.Keys;
      ghost var seen: set<Key> := {};
      while left != {}
        invariant left !! seen && left + seen == entries.Keys
        invariant StrictlySorted(addresses)
        invariant forall a :: a in addresses <==> Key(name, a) in seen && entries[Key(name, a)].revision == revision
        decreases |left|
      {
        var k :| k in left;
        if k.name == name && entries[k].revision == revision {
          InsertKeepsOrder(k.ip, addresses);
          forall a ensures a in Insert(k.ip, addresses) <==> a == k.ip || a in addresses {
            InsertMember(k.ip, addresses, a);
          }
          addresses := Insert(k.ip, addresses);
        }
        left := left - {k};
        seen := seen + {k};
      }
      assert seen == entries.Keys;
    }

    method Clear()
      requires Valid()
      modifies this
      ensures Valid() && entries == map[]
    {
      entries := map[];
    }
  }
}
