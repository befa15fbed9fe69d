/** The rules over whole runs: what every connection, query and pin obeys. */
module PinRules {
  import opened Prelude
  import opened Address
  import opened AddressClasses
  import opened Policy
  import opened PolicyRules
  import opened DnsBudget
  import opened Resolution
  import opened AuthorizationCache
  import opened PinProtocol
  import opened PinSafety
  import Domain
  import Splitting

  /** No address outside an explicit grant is ever connected to, however it was named
      or spelled: never the unspecified address, never a blocked network, and nothing
      in a loopback, private, link-local, multicast, unique-local or metadata block
      outside an allowed network. */
  lemma NoRestrictedConnection(c: Config, steps: seq<Step>, i: nat)
    requires c.capacity > 0
    requires i < |Run(c, steps).history| && Run(c, steps).history[i].Connected?
    ensures var plain := Canonicalize(Run(c, steps).history[i].ip);
            && !Contains(Block4(0, 0, 0, 0, 32), plain) && !Contains(Block6(0, 0, 0, 0, 0, 0, 128), plain)
            && !InSome(c.engine.blockedNetworks, plain)
            && forall k: nat | k < BLOCKS && Contains(Block(k), plain) :: InSome(c.engine.allowedNetworks, plain)
  {
    hide Apply, Run, Contains, Canonicalize;
    PinSafety.PinSafety(c, steps, i);
    var ip := Run(c, steps).history[i].ip;
    AddressPermittedExactly(c.engine, ip);
    assert forall k: nat | k < BLOCKS && Contains(Block(k), Canonicalize(ip)) :: Holds(k, Canonicalize(ip));
  }

  /** Every connection is to a listed port, if ports are listed. One by host name is for
      a name that the patterns in force allow; one to an address, to a network that
      they allow. */
  lemma ConnectionsObeyRules(c: Config, steps: seq<Step>, i: nat)
    requires c.capacity > 0
    requires i < |Run(c, steps).history| && Run(c, steps).history[i].Connected?
    ensures var e := Run(c, steps).history[i];
            && AddressRule(c.engine, e.ip) && PortListed(c.engine, Tcp, e.request.port)
            && match e.via
               case Some(name) => Domain.IsNormalized(name) && NameRule(c.engine, e.inForce, name)
               case None => NetworkRule(c.engine, e.inForce, e.ip)
  {
    hide Apply, Run, AddressRule, NameRule, NetworkRule, PortListed;
    PinSafety.PinSafety(c, steps, i);
    var e := Run(c, steps).history[i];
    match e.via {
      case Some(name) =>
        Domain.NormalizeFixpoints(e.request.target.host);
        HostnameDecidedExactly(c.engine, e.inForce, name, e.ip, e.request.port, Tcp);
      case None =>
        DirectDecidedExactly(c.engine, e.inForce, e.ip, e.request.port, Tcp);
    }
  }

  /** Every query sent upstream is for a canonical name within the limits that the
      patterns of the request's snapshot allow. */
  lemma QueriesObeyRules(c: Config, steps: seq<Step>, i: nat)
    requires c.capacity > 0
    requires i < |Run(c, steps).history| && Run(c, steps).history[i].Asked?
    ensures var e := Run(c, steps).history[i];
            var labels := Splitting.Split(e.name, '.');
            && Domain.IsNormalized(e.name) && NameRule(c.engine, e.snap, e.name)
            && |e.name| <= c.limits.maxQnameOctets && |labels| <= c.limits.maxLabels
            && forall k | 0 <= k < |labels| :: |labels[k]| <= c.limits.maxLabelOctets
  {
    hide Apply, Run, NameRule, Inv;
    var s := Run(c, steps);
    EveryRunKeeps(c, steps);
    HistoryHolds(c, s);
    assert EventOk(c, s.history, i);
    Domain.NormalizeFixpoints(s.history[i].name);
    NameAllowedExactly(c.engine, s.history[i].snap, s.history[i].name);
    hide Domain.NormalizeDomain, Domain.IsNormalized, EvaluateDomainName;
  }

  /** Every pin goes back to an answer whose names are all allowed by the patterns of
      its snapshot, and lives as long as a record of that answer, cut to the maximum. */
  lemma PinsObeyRules(c: Config, steps: seq<Step>, j: nat)
    requires c.capacity > 0
    requires j < |Run(c, steps).history| && Run(c, steps).history[j].Pinned?
    ensures var h := Run(c, steps).history;
            && h[j].answer < j && h[h[j].answer].Answered? && AddressRule(c.engine, h[j].ip)
            && var chain := h[h[j].answer].chain;
            && (forall k | 0 <= k < |chain.cnames| :: SpellsAllowed(c.engine, h[j].snap, chain.cnames[k]))
            && SpellsAllowed(c.engine, h[j].snap, chain.finalName)
            && exists i | 0 <= i < |chain.addresses| :: CutFrom(chain.addresses[i], c.engine.maxTtlSecs, h[j].ttlSecs)
  {
    hide Apply, Run, SpellsAllowed, AddressRule, Inv, CutFrom, EvaluateDomainName;
    var s := Run(c, steps);
    EveryRunKeeps(c, steps);
    HistoryHolds(c, s);
    var h := s.history;
    assert EventOk(c, h, j);
    AddressPermittedExactly(c.engine, h[j].ip);
    var chain := h[h[j].answer].chain;
    var names := NamesToValidate(chain);
    forall k | 0 <= k < |names| ensures SpellsAllowed(c.engine, h[j].snap, names[k]) {
      NameAllowedExactly(c.engine, h[j].snap, names[k]);
    }
    assert names[|chain.cnames|] == chain.finalName;
    assert forall k | 0 <= k < |chain.cnames| :: names[k] == chain.cnames[k];
  }

  // ---- The published scope -------------------------------------------------

  /** The refresh steps of a run, with their times. */
  ghost function Refreshes(c: Config, steps: seq<Step>): (r: seq<Refreshed>)
    requires c.capacity > 0
  {
    if steps == [] then []
    else
      var init, last := steps[..|steps| - 1], steps[|steps| - 1];
      Refreshes(c, init) + (if last.Scope? then [Refreshed(last.refresh, Run(c, init).now)] else [])
  }

  lemma RevisionsUntouched(c: Config, s: State, step: Step)
    requires c.capacity > 0 && !step.Scope?
    ensures Apply(c, s, step).revisions == s.revisions
  {
    hide Domain.NormalizeDomain, NameAllowed, Authorize, DnsValidate, ConnectValidate, HopsAllowed, LastVerdict,
      Lookup, Live, Sorted, Elements, Decided, View;
  }

  lemma {:induction false} RevisionsOfRun(c: Config, steps: seq<Step>)
    requires c.capacity > 0
    ensures Run(c, steps).revisions == ScopeAfter(Refreshes(c, steps))
  {
    if steps != [] {
      var init, last := steps[..|steps| - 1], steps[|steps| - 1];
      RevisionsOfRun(c, init);
      if last.Scope? {
        var events := Refreshes(c, init);
        var e := Refreshed(last.refresh, Run(c, init).now);
        assert (events + [e])[..|events|] == events;
      } else {
        RevisionsUntouched(c, Run(c, init), last);
        assert Refreshes(c, steps) == Refreshes(c, init);
      }
      hide Apply;
    }
  }

  /** In every run, whenever a published scope is in force, it was published, and a
      response less than a day before brought or confirmed it. */
  lemma ScopesAreFresh(c: Config, steps: seq<Step>)
    requires c.capacity > 0
    ensures var s := Run(c, steps);
            var scope, events := View(s.revisions.meta, s.now).scope, Refreshes(c, steps);
            scope.Some? ==>
              && (exists i: nat :: PublishedAt(events, i, scope.value))
              && exists i: nat, at: nat ::
                   ConfirmedAt(events, i, scope.value, at) && s.now < at + 24 * 60 * 60 * 1_000_000_000
  {
    hide Run, Refreshes, View, ScopeAfter, PublishedAt, ConfirmedAt;
    RevisionsOfRun(c, steps);
    ScopeIsFresh(Refreshes(c, steps), Run(c, steps).now);
  }
}
