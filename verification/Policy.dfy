/** The compiled egress policy, and the revisions of the published scope that
    brokers snapshot and compare. */
module Policy {
  import opened Prelude
  import opened Address
  import Domain

  datatype Action = Allow | Deny
  datatype Protocol = Tcp | Udp
  datatype PortRule = PortRule(protocol: Protocol, port: nat)

  datatype Engine = Engine(
    defaultAction: Action,
    allowDns: bool,
    allowedDomains: seq<string>,
    blockedDomains: seq<string>,
    allowedNetworks: seq<Network>,
    blockedNetworks: seq<Network>,
    allowedPorts: seq<PortRule>,
    maxTtlSecs: nat)

  /** Published grants on top of the configured rules. */
  datatype Scope = Scope(domains: seq<string>, networks: seq<Network>)

  /** One immutable view a broker keeps across a request. */
  datatype Snapshot = Snapshot(revision: nat, scope: Option<Scope>)

  function CapTtl(e: Engine, ttlSecs: nat): (r: nat)
    ensures r <= ttlSecs && r <= e.maxTtlSecs
  {
    if ttlSecs < e.maxTtlSecs then ttlSecs else e.maxTtlSecs
  }

  predicate MatchesSome(patterns: seq<string>, name: string) {
    exists i | 0 <= i < |patterns| :: Domain.PatternMatches(patterns[i], name)
  }

  /** `evaluate_domain` on a normalized name: blocked, allowed, published, default. */
  predicate DomainAllowed(e: Engine, s: Snapshot, name: string) {
    && !MatchesSome(e.blockedDomains, name)
    && (|| MatchesSome(e.allowedDomains, name)
        || (s.scope.Some? && MatchesSome(s.scope.value.domains, name))
        || e.defaultAction.Allow?)
  }

  function EvaluateDomainName(e: Engine, s: Snapshot, raw: string): (r: Result<bool, Domain.DomainError>) {
    var name :- Domain.NormalizeDomain(raw);
    Success(DomainAllowed(e, s, name))
  }

  /** `check_address`, on the canonical form of the address. */
  predicate AddressPermitted(e: Engine, ip: IpAddr) {
    var canonical := Canonicalize(ip);
    var kind := Classify(canonical);
    && kind != Unspecified
    && !InSome(e.blockedNetworks, canonical)
    && (kind != Global ==> InSome(e.allowedNetworks, canonical))
  }

  predicate PortAllowed(e: Engine, protocol: Protocol, port: nat) {
    e.allowedPorts == [] || PortRule(protocol, port) in e.allowedPorts
  }

  predicate DecideHostname(e: Engine, s: Snapshot, name: string, ip: IpAddr, port: nat, protocol: Protocol) {
    && AddressPermitted(e, ip)
    && PortAllowed(e, protocol, port)
    && EvaluateDomainName(e, s, name) == Success(true)
  }

  predicate DecideDirectIp(e: Engine, s: Snapshot, ip: IpAddr, port: nat, protocol: Protocol) {
    var canonical := Canonicalize(ip);
    && AddressPermitted(e, ip)
    && PortAllowed(e, protocol, port)
    && (|| InSome(e.allowedNetworks, canonical)
        || (s.scope.Some? && InSome(s.scope.value.networks, canonical))
        || e.defaultAction.Allow?)
  }

  /** No spelling of an address escapes: decisions are the same for an IPv4
      address and its IPv4-mapped form, and an address that is loopback, private,
      link-local, multicast, unique-local or a metadata endpoint in either form
      passes only under an explicit grant for the plain form. */
  lemma SpellingOfAddressIrrelevant(e: Engine, s: Snapshot, name: string, v4: Octets4, port: nat, protocol: Protocol)
    ensures var plain, mapped := V4(v4), V6(AsMapped(v4));
            && DecideHostname(e, s, name, mapped, port, protocol) == DecideHostname(e, s, name, plain, port, protocol)
            && DecideDirectIp(e, s, mapped, port, protocol) == DecideDirectIp(e, s, plain, port, protocol)
            && (Classify(mapped) != Global && !InSome(e.allowedNetworks, plain) ==>
                  !DecideHostname(e, s, name, mapped, port, protocol) &&
                  !DecideDirectIp(e, s, mapped, port, protocol))
  {
    CanonicalForm(V4(v4), V6(AsMapped(v4)));
    CanonicalForm(V6(AsMapped(v4)), V4(v4));
  }

  // ---- Revisions -----------------------------------------------------------

  const SECOND: nat := 1_000_000_000
  const META_MAX_STALENESS: nat := 86400 * SECOND

  datatype Validated = Validated(scope: Scope, at: nat, etag: bool)

  /** The shared scope state: a validated scope, if any, and its revision. */
  datatype Meta = Meta(snapshot: Option<Validated>, revision: nat)

  const EMPTY_META := Meta(None, 0)

  /** `Modified` carries the parsed scope, or none if the body or etag was bad. */
  datatype Response = Modified(scope: Option<Scope>, etag: bool) | NotModified

  /** `view`, hence `snapshot`: revision zero whenever no unexpired scope is held. */
  function View(m: Meta, now: nat): (s: Snapshot) {
    if m.snapshot.Some? && now - m.snapshot.value.at < META_MAX_STALENESS
    then Snapshot(m.revision, Some(m.snapshot.value.scope))
    else Snapshot(0, None)
  }

  /** `is_current`: only revision numbers are compared. */
  predicate IsCurrent(m: Meta, now: nat, s: Snapshot) {
    View(m, now).revision == s.revision
  }

  /** `prepare_response`: a candidate state with the next revision. */
  function Prepare(m: Meta, response: Response, now: nat): (r: Option<Meta>) {
    if m.revision == U64_MAX then None
    else match response
      case Modified(None, _) => None
      case Modified(Some(scope), etag) => Some(Meta(Some(Validated(scope, now, etag)), m.revision + 1))
      case NotModified =>
        if m.snapshot.Some? && m.snapshot.value.etag
        then Some(Meta(Some(m.snapshot.value.(at := now)), m.revision + 1))
        else None
  }

  function Cleared(m: Meta): (r: Meta) {
    m.(snapshot := None)
  }

  /** The scope state with the candidate of the refresh in progress, and every
      scope ever installed, by revision. */
  datatype Revisions = Revisions(meta: Meta, candidate: Option<Meta>, installed: map<nat, Scope>)

  const NO_REVISIONS := Revisions(EMPTY_META, None, map[])

  datatype RefreshStep = Fetch(response: Response) | Install | Abandon | Forget

  /** One step of a refresh, or a concurrent `clear`. A refresh holds its own
      lock, so there is one candidate at a time. */
  function Refresh(r: Revisions, step: RefreshStep, now: nat): (r': Revisions) {
    match step
    case Fetch(response) => if r.candidate.Some? then r else r.(candidate := Prepare(r.meta, response, now))
    case Install =>
      if r.candidate.None? then r
      else
        var m := r.candidate.value;
        Revisions(m, None,
                  if m.snapshot.Some? then r.installed[m.revision := m.snapshot.value.scope] else r.installed)
    case Abandon => Revisions(Cleared(r.meta), None, r.installed)
    case Forget => r.(meta := Cleared(r.meta))
  }

  ghost predicate RevisionsValid(r: Revisions) {
    && (forall n | n in r.installed :: 1 <= n <= r.meta.revision)
    && (r.meta.snapshot.Some? ==>
          r.meta.revision in r.installed && r.installed[r.meta.revision] == r.meta.snapshot.value.scope)
    && (r.candidate.Some? ==> r.candidate.value.revision == r.meta.revision + 1)
  }

  /** A snapshot that some state showed: no scope at revision zero, else the one
      scope installed under its revision. */
  ghost predicate Genuine(installed: map<nat, Scope>, s: Snapshot) {
    if s.revision == 0 then s.scope.None?
    else s.revision in installed && s.scope == Some(installed[s.revision])
  }

  ghost predicate Grows(a: map<nat, Scope>, b: map<nat, Scope>) {
    forall n | n in a :: n in b && a[n] == b[n]
  }

  lemma RefreshKeepsRevisions(r: Revisions, step: RefreshStep, now: nat)
    requires RevisionsValid(r)
    ensures RevisionsValid(Refresh(r, step, now))
    ensures Grows(r.installed, Refresh(r, step, now).installed)
  {
    var r' := Refresh(r, step, now);
    if step.Install? && r.candidate.Some? {
      assert r.candidate.value.revision !in r.installed;
    }
  }

  lemma ViewIsGenuine(r: Revisions, now: nat)
    requires RevisionsValid(r)
    ensures Genuine(r.installed, View(r.meta, now))
  {
  }

  lemma GenuineGrows(a: map<nat, Scope>, b: map<nat, Scope>, s: Snapshot)
    requires Grows(a, b) && Genuine(a, s)
    ensures Genuine(b, s)
  {
  }

  /** Comparing revision numbers is enough: although the visible revision drops
      to zero and comes back, equal revisions mean equal policies, so a snapshot
      that is current is the policy in force. */
  lemma CurrentIsInForce(r: Revisions, now: nat, s: Snapshot)
    requires RevisionsValid(r) && Genuine(r.installed, s) && IsCurrent(r.meta, now, s)
    ensures s == View(r.meta, now)
  {
    ViewIsGenuine(r, now);
  }

  // ---- Freshness -----------------------------------------------------------

  /** A refresh step and the time it happened. */
  datatype Refreshed = Refreshed(step: RefreshStep, at: nat)

  /** The scope state after a sequence of refresh steps. */
  function ScopeAfter(events: seq<Refreshed>): (r: Revisions) {
    if events == [] then NO_REVISIONS
    else
      var last := events[|events| - 1];
      Refresh(ScopeAfter(events[..|events| - 1]), last.step, last.at)
  }

  /** This scope was published, in a response of its own. */
  ghost predicate PublishedAt(events: seq<Refreshed>, i: nat, scope: Scope) {
    && i < |events| && events[i].step.Fetch?
    && events[i].step.response.Modified? && events[i].step.response.scope == Some(scope)
  }

  /** A response at this time brought or confirmed the scope. */
  ghost predicate ConfirmedAt(events: seq<Refreshed>, i: nat, scope: Scope, at: nat) {
    && i < |events| && events[i].step.Fetch? && events[i].at == at
    && (events[i].step.response.NotModified? || PublishedAt(events, i, scope))
  }

  ghost predicate Attested(events: seq<Refreshed>, v: Validated) {
    && (exists i: nat :: PublishedAt(events, i, v.scope))
    && (exists i: nat :: ConfirmedAt(events, i, v.scope, v.at))
  }

  ghost predicate MetaAttested(events: seq<Refreshed>, m: Meta) {
    m.snapshot.Some? ==> Attested(events, m.snapshot.value)
  }

  lemma AttestedGrows(events: seq<Refreshed>, e: Refreshed, v: Validated)
    requires Attested(events, v)
    ensures Attested(events + [e], v)
  {
    var i: nat :| PublishedAt(events, i, v.scope);
    assert PublishedAt(events + [e], i, v.scope);
    var j: nat :| ConfirmedAt(events, j, v.scope, v.at);
    assert ConfirmedAt(events + [e], j, v.scope, v.at);
  }

  lemma MetaGrows(events: seq<Refreshed>, e: Refreshed, m: Meta)
    requires MetaAttested(events, m)
    ensures MetaAttested(events + [e], m)
  {
    if m.snapshot.Some? {
      AttestedGrows(events, e, m.snapshot.value);
    }
  }

  /** A candidate is attested by the response it was made from. */
  lemma PreparedAttested(events: seq<Refreshed>, response: Response, now: nat, m: Meta)
    requires MetaAttested(events, m) && Prepare(m, response, now).Some?
    ensures MetaAttested(events + [Refreshed(Fetch(response), now)], Prepare(m, response, now).value)
  {
    var e := Refreshed(Fetch(response), now);
    var all, v := events + [e], Prepare(m, response, now).value.snapshot.value;
    assert all[|events|] == e;
    if response.Modified? {
      assert PublishedAt(all, |events|, v.scope);
    } else {
      AttestedGrows(events, e, m.snapshot.value);
    }
    assert ConfirmedAt(all, |events|, v.scope, now);
  }

  lemma {:induction false} AlwaysAttested(events: seq<Refreshed>)
    ensures var r := ScopeAfter(events);
            MetaAttested(events, r.meta) && (r.candidate.Some? ==> MetaAttested(events, r.candidate.value))
  {
    if events != [] {
      var init, last := events[..|events| - 1], events[|events| - 1];
      AlwaysAttested(init);
      assert events == init + [last];
      var r := ScopeAfter(init);
      hide MetaAttested;
      MetaGrows(init, last, r.meta);
      ClearedAttested(events, r.meta);
      if r.candidate.Some? {
        MetaGrows(init, last, r.candidate.value);
      } else if last.step.Fetch? && Prepare(r.meta, last.step.response, last.at).Some? {
        PreparedAttested(init, last.step.response, last.at, r.meta);
      }
    }
  }

  lemma ClearedAttested(events: seq<Refreshed>, m: Meta)
    ensures MetaAttested(events, Cleared(m))
  {
  }

  /** A published scope is in force only if it was published, and a response less than
      a day old brought or confirmed it. */
  lemma ScopeIsFresh(events: seq<Refreshed>, now: nat)
    ensures var s := View(ScopeAfter(events).meta, now);
            s.scope.Some? ==>
              && (exists i: nat :: PublishedAt(events, i, s.scope.value))
              && exists i: nat, at: nat ::
                   ConfirmedAt(events, i, s.scope.value, at) && now < at + 24 * 60 * 60 * 1_000_000_000
  {
    AlwaysAttested(events);
    var m := ScopeAfter(events).meta;
    if View(m, now).scope.Some? {
      var v := m.snapshot.value;
      var i: nat :| ConfirmedAt(events, i, v.scope, v.at);
    }
  }

  function Installing(events: seq<Refreshed>, response: Response, at: nat, later: nat): (all: seq<Refreshed>) {
    events + [Refreshed(Fetch(response), at)] + [Refreshed(Install, later)]
  }

  lemma InstallingRefreshes(events: seq<Refreshed>, response: Response, at: nat, later: nat)
    ensures ScopeAfter(Installing(events, response, at, later)) ==
            Refresh(Refresh(ScopeAfter(events), Fetch(response), at), Install, later)
  {
    var fetched := events + [Refreshed(Fetch(response), at)];
    assert fetched[..|events|] == events;
    assert Installing(events, response, at, later)[..|fetched|] == fetched;
  }

  /** A scope that is fetched and installed is in force for a day. */
  lemma PublishedTakesEffect(events: seq<Refreshed>, scope: Scope, etag: bool, at: nat, later: nat, now: nat)
    requires ScopeAfter(events).candidate.None? && ScopeAfter(events).meta.revision < U64_MAX
    ensures View(ScopeAfter(Installing(events, Modified(Some(scope), etag), at, later)).meta, now).scope ==
            if now < at + 24 * 60 * 60 * 1_000_000_000 then Some(scope) else None
  {
    InstallingRefreshes(events, Modified(Some(scope), etag), at, later);
  }

  /** A confirmation of a scope held under an entity tag keeps it in force for a day from
      then; without such a scope it changes nothing. */
  lemma ConfirmedTakesEffect(events: seq<Refreshed>, at: nat, later: nat, now: nat)
    requires ScopeAfter(events).candidate.None? && ScopeAfter(events).meta.revision < U64_MAX
    ensures var held, after := ScopeAfter(events).meta.snapshot, ScopeAfter(Installing(events, NotModified, at, later));
            if held.Some? && held.value.etag
            then View(after.meta, now).scope ==
                 if now < at + 24 * 60 * 60 * 1_000_000_000 then Some(held.value.scope) else None
            else after == ScopeAfter(events)
  {
    InstallingRefreshes(events, NotModified, at, later);
  }

  /** Clearing takes effect at once. */
  lemma ForgottenAtOnce(events: seq<Refreshed>, step: RefreshStep, at: nat, now: nat)
    requires step.Forget? || step.Abandon?
    ensures View(ScopeAfter(events + [Refreshed(step, at)]).meta, now) == Snapshot(0, None)
  {
    assert (events + [Refreshed(step, at)])[..|events|] == events;
  }
}
