/** The egress rules in the terms they are written in: networks, name patterns, ports
    and the default action. The decisions of `Policy` are exactly these. */
module PolicyRules {
  import opened Prelude
  import opened Address
  import opened AddressClasses
  import opened Policy
  import Domain

  ghost predicate CoveredBySome(patterns: seq<string>, name: string) {
    exists i | 0 <= i < |patterns| :: Domain.Covers(patterns[i], name)
  }

  /** No blocked pattern covers the name; an allowed or a published one does, or names
      are allowed by default. */
  ghost predicate NameRule(e: Engine, s: Snapshot, name: string) {
    && !CoveredBySome(e.blockedDomains, name)
    && (CoveredBySome(e.allowedDomains, name)
        || (s.scope.Some? && CoveredBySome(s.scope.value.domains, name))
        || e.defaultAction.Allow?)
  }

  /** Never the unspecified address, never in a blocked network, and in a block of its
      own class only inside an allowed network. */
  ghost predicate AddressRule(e: Engine, ip: IpAddr) {
    var plain := Canonicalize(ip);
    && !Holds(UNSPECIFIED_V4, plain) && !Holds(UNSPECIFIED_V6, plain)
    && !InSome(e.blockedNetworks, plain)
    && (Unlisted(plain) || InSome(e.allowedNetworks, plain))
  }

  /** With a list of ports, only those. */
  ghost predicate PortListed(e: Engine, protocol: Protocol, port: nat) {
    e.allowedPorts != [] ==> exists i | 0 <= i < |e.allowedPorts| :: e.allowedPorts[i] == PortRule(protocol, port)
  }

  /** A direct address is in an allowed or a published network, or allowed by default. */
  ghost predicate NetworkRule(e: Engine, s: Snapshot, ip: IpAddr) {
    var plain := Canonicalize(ip);
    || InSome(e.allowedNetworks, plain)
    || (s.scope.Some? && InSome(s.scope.value.networks, plain))
    || e.defaultAction.Allow?
  }

  lemma MatchesSomeExactly(patterns: seq<string>, name: string)
    requires Domain.IsNormalized(name)
    ensures MatchesSome(patterns, name) <==> CoveredBySome(patterns, name)
  {
    hide Domain.IsNormalized, Domain.PatternMatches, Domain.Covers;
    forall i | 0 <= i < |patterns|
      ensures Domain.PatternMatches(patterns[i], name) <==> Domain.Covers(patterns[i], name)
    {
      Domain.MatchesExactly(patterns[i], name);
    }
  }

  /** Some spelling of a canonical name that the rule allows. */
  ghost predicate SpellsAllowed(e: Engine, s: Snapshot, raw: string) {
    Domain.NormalizeDomain(raw).Success? && NameRule(e, s, Domain.NormalizeDomain(raw).value)
  }

  lemma NameAllowedExactly(e: Engine, s: Snapshot, raw: string)
    ensures EvaluateDomainName(e, s, raw) == Success(true) <==> SpellsAllowed(e, s, raw)
  {
    Domain.NormalizeFixpoints(raw);
    hide Domain.IsNormalized, MatchesSome, CoveredBySome;
    if Domain.NormalizeDomain(raw).Success? {
      var name := Domain.NormalizeDomain(raw).value;
      MatchesSomeExactly(e.blockedDomains, name);
      MatchesSomeExactly(e.allowedDomains, name);
      if s.scope.Some? {
        MatchesSomeExactly(s.scope.value.domains, name);
      }
    }
  }

  lemma AddressPermittedExactly(e: Engine, ip: IpAddr)
    ensures AddressPermitted(e, ip) <==> AddressRule(e, ip)
  {
    var plain := Canonicalize(ip);
    CanonicalForm(ip, ip);
    ClassifyByBlocks(ip);
    UnspecifiedExactly(plain);
    hide InSome, Holds, Classify, Canonicalize;
  }

  /** The decision on a host name connection. */
  lemma HostnameDecidedExactly(e: Engine, s: Snapshot, name: string, ip: IpAddr, port: nat, protocol: Protocol)
    requires Domain.IsNormalized(name)
    ensures DecideHostname(e, s, name, ip, port, protocol) <==>
            AddressRule(e, ip) && PortListed(e, protocol, port) && NameRule(e, s, name)
  {
    Domain.NormalizeFixpoints(name);
    NameAllowedExactly(e, s, name);
    AddressPermittedExactly(e, ip);
    hide Domain.IsNormalized, Domain.NormalizeDomain, EvaluateDomainName, NameRule, AddressRule, AddressPermitted;
  }

  /** The decision on a connection to an address. */
  lemma DirectDecidedExactly(e: Engine, s: Snapshot, ip: IpAddr, port: nat, protocol: Protocol)
    ensures DecideDirectIp(e, s, ip, port, protocol) <==>
            AddressRule(e, ip) && PortListed(e, protocol, port) && NetworkRule(e, s, ip)
  {
    AddressPermittedExactly(e, ip);
    hide AddressRule, AddressPermitted, InSome;
  }
}
