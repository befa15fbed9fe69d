/** The other half of pin safety: what suffices for a connection, in any state a
    run can reach. */
module PinProgress {
  import opened Prelude
  import opened Address
  import opened Policy
  import opened DnsBudget
  import opened Resolution
  import opened AuthorizationCache
  import opened PinProtocol
  import opened PinSafety
  import Domain

  // ---- Further steps -------------------------------------------------------

  ghost function Then(c: Config, s: State, steps: seq<Step>): (r: State)
    requires c.capacity > 0
  {
    if steps == [] then s else Apply(c, Then(c, s, steps[..|steps| - 1]), steps[|steps| - 1])
  }

  lemma {:induction false} RunThen(c: Config, steps: seq<Step>, more: seq<Step>)
    requires c.capacity > 0
    ensures Run(c, steps + more) == Then(c, Run(c, steps), more)
  {
    hide Apply;
    if more == [] {
      assert steps + more == steps;
    } else {
      RunThen(c, steps, more[..|more| - 1]);
      assert (steps + more)[..|steps + more| - 1] == steps + more[..|more| - 1];
    }
  }

  lemma ThenOne(c: Config, s: State, steps: seq<Step>, step: Step)
    requires c.capacity > 0
    ensures Then(c, s, steps + [step]) == Apply(c, Then(c, s, steps), step)
  {
    hide Apply;
    assert (steps + [step])[..|steps|] == steps;
  }

  lemma {:induction false} ThenConcat(c: Config, s: State, a: seq<Step>, b: seq<Step>)
    requires c.capacity > 0
    ensures Then(c, s, a + b) == Then(c, Then(c, s, a), b)
  {
    hide Apply;
    if b == [] {
      assert a + b == a;
    } else {
      ThenConcat(c, s, a, b[..|b| - 1]);
      assert (a + b)[..|a + b| - 1] == a + b[..|b| - 1];
    }
  }

  lemma TwoSteps(c: Config, s: State, p: Step, q: Step)
    requires c.capacity > 0
    ensures Then(c, s, [p, q]) == Apply(c, Apply(c, s, p), q)
  {
    hide Apply;
    ThenOne(c, s, [], p);
    ThenOne(c, s, [p], q);
    assert [] + [p] == [p] && [p] + [q] == [p, q];
    hide Then;
  }

  // ---- What the steps do ---------------------------------------------------

  lemma DoesLookUp(c: Config, s: State, id: nat, request: Request)
    requires c.capacity > 0
    ensures Then(c, s, [StartConnect(id, request), LookUp(id)]) ==
            LookUpNext(c, StartConnectNext(c, s, id, request), id)
  {
    hide StartConnectNext, LookUpNext, Then;
    TwoSteps(c, s, StartConnect(id, request), LookUp(id));
  }

  lemma DoesUseDirect(c: Config, s: State, id: nat, request: Request)
    requires c.capacity > 0
    ensures Then(c, s, [StartConnect(id, request), UseDirect(id)]) ==
            UseDirectNext(c, StartConnectNext(c, s, id, request), id)
  {
    hide StartConnectNext, UseDirectNext, Then;
    TwoSteps(c, s, StartConnect(id, request), UseDirect(id));
  }

  lemma DoesAsk(c: Config, s: State, id: nat, time: nat, chain: Chain)
    requires c.capacity > 0
    ensures Then(c, s, [AdmitConnect(id, time), AnswerConnect(id, chain), CheckConnect(id)]) ==
            CheckConnectNext(c, AnswerConnectNext(c, AdmitConnectNext(c, s, id, time), id, chain), id)
  {
    hide AdmitConnectNext, AnswerConnectNext, CheckConnectNext, Then;
    TwoSteps(c, s, AdmitConnect(id, time), AnswerConnect(id, chain));
    ThenOne(c, s, [AdmitConnect(id, time), AnswerConnect(id, chain)], CheckConnect(id));
    assert [AdmitConnect(id, time), AnswerConnect(id, chain)] + [CheckConnect(id)] ==
           [AdmitConnect(id, time), AnswerConnect(id, chain), CheckConnect(id)];
  }

  lemma DoesDial(c: Config, s: State, id: nat)
    requires c.capacity > 0
    ensures Then(c, s, [Decide(id), Dialed(id)]) == DialedNext(c, DecideNext(c, s, id), id)
  {
    hide DecideNext, DialedNext, Then;
    TwoSteps(c, s, Decide(id), Dialed(id));
  }

  lemma DoesUseCached(c: Config, s: State, id: nat)
    requires c.capacity > 0
    ensures Apply(c, s, UseCached(id)) == UseCachedNext(c, s, id)
  {
    hide UseCachedNext;
  }

  lemma DoesPin(c: Config, s: State, id: nat, time: nat)
    requires c.capacity > 0
    ensures Apply(c, s, PinConnect(id, time)) == PinConnectNext(c, s, id, time)
  {
    hide PinConnectNext;
  }

  lemma DoesFinish(c: Config, s: State, id: nat)
    requires c.capacity > 0
    ensures Apply(c, s, FinishPins(id)) == FinishPinsNext(c, s, id)
  {
    hide FinishPinsNext;
  }

  lemma DoesChoose(c: Config, s: State, id: nat)
    requires c.capacity > 0
    ensures Apply(c, s, Choose(id)) == ChooseNext(c, s, id)
  {
    hide ChooseNext;
  }

  // ---- The end of every connection -----------------------------------------

  /** Decision, dial, re-check. */
  lemma Dials(c: Config, s: State, id: nat)
    requires c.capacity > 0 && id in s.tasks && s.tasks[id].ConnChosen?
    requires s.tasks[id].snap == View(s.revisions.meta, s.now)
    requires var t := s.tasks[id]; Decided(c, t.snap, t.via, t.ip, t.request.port)
    ensures var t, f := s.tasks[id], Then(c, s, [Decide(id), Dialed(id)]);
            f.history == s.history + [Connected(id, t.request, t.via, t.ip, t.snap, t.snap)] && f.calls == s.calls
  {
    hide Decided, Apply, Then;
    DoesDial(c, s, id);
  }

  /** The address a request ends up with. */
  function Chosen(request: Request, candidates: seq<IpAddr>): (ip: IpAddr)
    requires request.expected.None? ==> candidates != []
  {
    if request.expected.Some? then request.expected.value else candidates[0]
  }

  /** From the candidate addresses to the connection. */
  lemma Closes(c: Config, s: State, id: nat)
    requires c.capacity > 0 && id in s.tasks && s.tasks[id].ConnReady?
    requires var t := s.tasks[id];
             && t.snap == View(s.revisions.meta, s.now) && t.candidates != []
             && (t.request.expected.Some? ==> t.request.expected.value in t.candidates)
             && Decided(c, t.snap, Some(t.name), Chosen(t.request, t.candidates), t.request.port)
    ensures var t, f := s.tasks[id], Then(c, s, [Choose(id)] + [Decide(id), Dialed(id)]);
            && f.history ==
               s.history + [Connected(id, t.request, Some(t.name), Chosen(t.request, t.candidates), t.snap, t.snap)]
            && f.calls == s.calls
  {
    hide Decided, View, Apply, Then;
    var t := s.tasks[id];
    ThenConcat(c, s, [Choose(id)], [Decide(id), Dialed(id)]);
    ThenOne(c, s, [], Choose(id));
    assert [] + [Choose(id)] == [Choose(id)];
    ThenNone(c, s);
    DoesChoose(c, s, id);
    var s1 := ChooseNext(c, s, id);
    assert s1 == Put(s, id, ConnChosen(t.snap, t.request, Some(t.name), Chosen(t.request, t.candidates)));
    hide ChooseNext;
    Dials(c, s1, id);
  }

  lemma ThenNone(c: Config, s: State)
    requires c.capacity > 0
    ensures Then(c, s, []) == s
  {
  }

  // ---- A direct address ----------------------------------------------------

  /** In any reachable state an address that the policy in force allows directly is
      connected to. */
  lemma AllowedAddressConnects(c: Config, steps: seq<Step>, id: nat, request: Request)
    requires c.capacity > 0 && id !in Run(c, steps).tasks && request.target.Direct?
    requires request.expected.None? || request.expected.value == request.target.ip
    requires var s := Run(c, steps);
             Decided(c, View(s.revisions.meta, s.now), None, request.target.ip, request.port)
    ensures var s := Run(c, steps);
            var snap := View(s.revisions.meta, s.now);
            Run(c, steps + ([StartConnect(id, request), UseDirect(id)] + [Decide(id), Dialed(id)])).history ==
            s.history + [Connected(id, request, None, request.target.ip, snap, snap)]
  {
    hide Apply, Then, Decided, Run;
    var s := Run(c, steps);
    var start, finish := [StartConnect(id, request), UseDirect(id)], [Decide(id), Dialed(id)];
    RunThen(c, steps, start + finish);
    ThenConcat(c, s, start, finish);
    DoesUseDirect(c, s, id, request);
    var s1 := StartConnectNext(c, s, id, request);
    var s2 := UseDirectNext(c, s1, id);
    assert s2 == Put(s1, id, ConnChosen(View(s.revisions.meta, s.now), request, None, request.target.ip));
    Dials(c, s2, id);
  }

  // ---- A host name that is pinned ------------------------------------------

  /** A host name request up to its cache lookup. */
  lemma Opens(c: Config, s: State, id: nat, request: Request, name: string)
    requires c.capacity > 0 && id !in s.tasks && request.target.Hostname?
    requires Domain.NormalizeDomain(request.target.host) == Success(name)
    requires NameAllowed(c, View(s.revisions.meta, s.now), name)
    ensures var snap := View(s.revisions.meta, s.now);
            var found := Lookup(s.cache, name, snap.revision, s.now);
            Then(c, s, [StartConnect(id, request), LookUp(id)]) ==
            s.(cache := Live(s.cache, s.now), history := s.history + [Looked(id, name, s.now)],
               tasks := s.tasks[id := ConnLooked(snap, request, name, found)])
  {
    hide Domain.NormalizeDomain, NameAllowed, Lookup, View, Live, Apply, Then;
    DoesLookUp(c, s, id, request);
    var s1 := StartConnectNext(c, s, id, request);
    assert s1 == Put(s, id, ConnStarted(View(s.revisions.meta, s.now), request));
    hide StartConnectNext;
    assert s.tasks[id := s1.tasks[id]][id := LookUpNext(c, s1, id).tasks[id]] ==
           s.tasks[id := LookUpNext(c, s1, id).tasks[id]];
  }

  /** Every cached address was permitted when it was pinned, and still is. */
  lemma CachedIsPermitted(c: Config, s: State, key: Key)
    requires Inv(c, s) && key in s.cache
    ensures AddressPermitted(c.engine, key.ip)
  {
    hide AddressPermitted, TasksOk, RevisionsValid, StampsOk, Domain.NormalizeDomain;
    var j: nat :| j < |s.history| && Backed(s.history, j, key, s.cache[key]);
    assert EventOk(c, s.history, j);
  }

  lemma NameDecides(c: Config, snap: Snapshot, name: string, ip: IpAddr, port: nat)
    requires NameAllowed(c, snap, name) && AddressPermitted(c.engine, ip) && PortAllowed(c.engine, Tcp, port)
    ensures Decided(c, snap, Some(name), ip, port)
  {
    hide AddressPermitted, EvaluateDomainName, StructureVerdict;
  }

  /** In any reachable state a pin that is live under the policy in force suffices
      for an allowed name and port: the connection goes to the expected address if
      one is given and pinned, to the least one if none is given, without an
      upstream query and without charge to the budget. */
  lemma LivePinConnects(c: Config, steps: seq<Step>, id: nat, request: Request, name: string, found: seq<IpAddr>)
    requires c.capacity > 0 && id !in Run(c, steps).tasks && request.target.Hostname?
    requires Domain.NormalizeDomain(request.target.host) == Success(name)
    requires var s := Run(c, steps);
             var snap := View(s.revisions.meta, s.now);
             && NameAllowed(c, snap, name) && PortAllowed(c.engine, Tcp, request.port)
             && found == Lookup(s.cache, name, snap.revision, s.now) && found != []
             && (request.expected.Some? ==> request.expected.value in found)
    ensures var s, f := Run(c, steps), Run(c, steps + PinnedSteps(id, request));
            var snap := View(s.revisions.meta, s.now);
            && f.history == s.history + [Looked(id, name, s.now)] +
                            [Connected(id, request, Some(name), Chosen(request, found), snap, snap)]
            && f.calls == s.calls
  {
    hide Domain.NormalizeDomain, NameAllowed, Decided, Lookup, View, Live, Apply, Then, Run, Inv, AddressPermitted,
      PortAllowed;
    var s := Run(c, steps);
    var snap, ip := View(s.revisions.meta, s.now), Chosen(request, found);
    RunThen(c, steps, PinnedSteps(id, request));
    EveryRunKeeps(c, steps);
    assert ip in found;
    LookupIsCached(s, name, snap.revision, ip);
    CachedIsPermitted(c, s, Key(name, ip));
    NameDecides(c, snap, name, ip, request.port);
    var opening, closing := [StartConnect(id, request), LookUp(id)], [Choose(id)] + [Decide(id), Dialed(id)];
    ThenConcat(c, s, opening + [UseCached(id)], closing);
    ThenOne(c, s, opening, UseCached(id));
    Opens(c, s, id, request, name);
    var s1 := Then(c, s, opening);
    DoesUseCached(c, s1, id);
    var s2 := UseCachedNext(c, s1, id);
    assert s2 == Put(s1, id, ConnReady(snap, request, name, found));
    hide UseCachedNext;
    Closes(c, s2, id);
  }

  function PinnedSteps(id: nat, request: Request): (r: seq<Step>) {
    [StartConnect(id, request), LookUp(id)] + [UseCached(id)] + ([Choose(id)] + [Decide(id), Dialed(id)])
  }

  lemma LookupIsCached(s: State, name: string, revision: nat, ip: IpAddr)
    requires ip in Lookup(s.cache, name, revision, s.now)
    ensures Key(name, ip) in s.cache
  {
  }

  // ---- A host name that has to be resolved ---------------------------------

  /** From the lookup to a validated answer. */
  lemma Asks(c: Config, s: State, id: nat, chain: Chain)
    requires c.capacity > 0 && id in s.tasks && s.tasks[id].ConnLooked? && c.engine.allowDns
    requires var t := s.tasks[id];
             && t.snap == View(s.revisions.meta, s.now) && NeedFresh(t.candidates, t.request.expected)
             && LastVerdict(c.limits, s.calls + [Call(t.name, s.now)]).Admitted?
             && HopsAllowed(c.engine, t.snap, chain)
    ensures var t := s.tasks[id];
            var f := Then(c, s, [AdmitConnect(id, s.now), AnswerConnect(id, chain), CheckConnect(id)]);
            && f.now == s.now && f.revisions == s.revisions && f.calls == s.calls + [Call(t.name, s.now)]
            && f.tasks == s.tasks[id := ConnPinning(t.snap, t.request, t.name, t.candidates, |s.history| + 1,
                                                    ConnectValidate(c.engine, c.limits, chain), 0)]
  {
    hide View, LastVerdict, HopsAllowed, ConnectValidate, Apply, Then, NeedFresh;
    var t := s.tasks[id];
    DoesAsk(c, s, id, s.now, chain);
    var s1 := AdmitConnectNext(c, s, id, s.now);
    assert s1.tasks == s.tasks[id := ConnAsking(t.snap, t.request, t.name, t.candidates)];
    assert |s1.history| == |s.history| + 1;
    hide AdmitConnectNext;
    var s2 := AnswerConnectNext(c, s1, id, chain);
    assert s2.tasks == s.tasks[id := ConnAnswered(t.snap, t.request, t.name, t.candidates, |s1.history|)];
    assert s2.history[|s1.history|] == Answered(id, t.name + ".", t.name, chain);
    hide AnswerConnectNext;
  }

  function PinSteps(id: nat, now: nat, n: nat): (r: seq<Step>)
    ensures |r| == n
  {
    if n == 0 then [] else PinSteps(id, now, n - 1) + [PinConnect(id, now)]
  }

  /** One pin after the other. */
  lemma {:induction false} PinsAll(c: Config, s: State, id: nat, n: nat)
    requires c.capacity > 0 && id in s.tasks && s.tasks[id].ConnPinning? && s.tasks[id].done == 0
    requires n <= |s.tasks[id].records|
    ensures var f := Then(c, s, PinSteps(id, s.now, n));
            && f.now == s.now && f.revisions == s.revisions && f.calls == s.calls
            && f.tasks == s.tasks[id := s.tasks[id].(done := n)]
  {
    hide Apply, Then;
    if n == 0 {
      ThenNone(c, s);
      assert s.tasks[id := s.tasks[id].(done := 0)] == s.tasks;
    } else {
      PinsAll(c, s, id, n - 1);
      var f := Then(c, s, PinSteps(id, s.now, n - 1));
      ThenOne(c, s, PinSteps(id, s.now, n - 1), PinConnect(id, s.now));
      DoesPin(c, f, id, s.now);
      hide Authorize, CapTtl;
      assert PinConnectNext(c, f, id, s.now).tasks == f.tasks[id := s.tasks[id].(done := n)];
    }
  }

  lemma {:induction false} StartsSorted(s: seq<IpAddr>, n: nat)
    requires StrictlySorted(s) && n <= |s|
    ensures StrictlySorted(s[..n])
  {
  }

  /** The kept addresses are sorted, so with no earlier candidates the least comes
      first. */
  lemma KeptAreSorted(c: Config, chain: Chain)
    ensures StrictlySorted(Ips(ConnectValidate(c.engine, c.limits, chain)))
  {
    var accepted := Acceptable(c.engine, c.limits, chain.addresses);
    SortDedupMeaning(accepted);
    var sorted, kept := SortDedup(accepted), ConnectValidate(c.engine, c.limits, chain);
    hide Acceptable, SortDedup, StrictlySorted;
    assert Ips(kept) == Ips(sorted)[..|kept|];
    StartsSorted(Ips(sorted), |kept|);
  }

  /** The candidates after the pins: the new addresses among them, and the least of
      them first if there were none before. */
  lemma Merged(before: seq<IpAddr>, added: seq<IpAddr>)
    requires StrictlySorted(added) && added != []
    ensures var all := Sorted(Elements(before) + Elements(added));
            && all != [] && (forall ip | ip in added :: ip in all) && (before == [] ==> all == added)
  {
    var all := Sorted(Elements(before) + Elements(added));
    hide Sorted;
    forall ip | ip in added ensures ip in all {
      assert ip in Elements(all);
    }
    assert added[0] in all;
    if before == [] {
      assert Elements(before) == {};
      SortedUnique(all, added);
    }
  }

  function FreshSteps(id: nat, request: Request, chain: Chain, now: nat, pins: nat): (r: seq<Step>) {
    [StartConnect(id, request), LookUp(id)] +
    ([AdmitConnect(id, now), AnswerConnect(id, chain), CheckConnect(id)] +
     (PinSteps(id, now, pins) + [FinishPins(id)] + ([Choose(id)] + [Decide(id), Dialed(id)])))
  }

  /** From a validated answer to the connection. */
  lemma PinsAndDials(c: Config, s: State, id: nat, ip: IpAddr)
    requires c.capacity > 0 && id in s.tasks && s.tasks[id].ConnPinning? && s.tasks[id].done == 0
    requires var t := s.tasks[id];
             && t.snap == View(s.revisions.meta, s.now)
             && StrictlySorted(Ips(t.records)) && t.records != []
             && (if t.request.expected.Some? then ip == t.request.expected.value && ip in Ips(t.records)
                 else t.candidates == [] && ip == t.records[0].ip)
             && Decided(c, t.snap, Some(t.name), ip, t.request.port)
    ensures var t := s.tasks[id];
            var f := Then(c, s, PinSteps(id, s.now, |t.records|) + [FinishPins(id)] +
                                ([Choose(id)] + [Decide(id), Dialed(id)]));
            && f.history != []
            && f.history[|f.history| - 1] == Connected(id, t.request, Some(t.name), ip, t.snap, t.snap)
            && f.calls == s.calls
  {
    hide Apply, Then, View, Decided, Sorted, StrictlySorted, PinSteps, Elements;
    var t := s.tasks[id];
    var n := |t.records|;
    var pins := PinSteps(id, s.now, n);
    ThenConcat(c, s, pins + [FinishPins(id)], [Choose(id)] + [Decide(id), Dialed(id)]);
    ThenOne(c, s, pins, FinishPins(id));
    PinsAll(c, s, id, n);
    var s1 := Then(c, s, pins);
    DoesFinish(c, s1, id);
    var s2 := FinishPinsNext(c, s1, id);
    Merged(t.candidates, Ips(t.records));
    assert s2.tasks[id] ==
           ConnReady(t.snap, t.request, t.name, Sorted(Elements(t.candidates) + Elements(Ips(t.records))));
    hide FinishPinsNext;
    Closes(c, s2, id);
  }

  /** In any reachable state an allowed name and port can be connected to after one
      admitted query whose answer keeps any address: to the expected address if one
      is given that was not cached and is kept, to the least one kept if none is
      given and none was cached. */
  lemma FreshNameConnects(c: Config, steps: seq<Step>, id: nat, request: Request, name: string, chain: Chain,
                          kept: seq<Record>)
    requires c.capacity > 0 && id !in Run(c, steps).tasks && request.target.Hostname? && c.engine.allowDns
    requires Domain.NormalizeDomain(request.target.host) == Success(name)
    requires kept == ConnectValidate(c.engine, c.limits, chain) && kept != []
    requires request.expected.Some? ==> request.expected.value in Ips(kept)
    requires var s := Run(c, steps);
             var snap := View(s.revisions.meta, s.now);
             && NameAllowed(c, snap, name) && PortAllowed(c.engine, Tcp, request.port)
             && NeedFresh(Lookup(s.cache, name, snap.revision, s.now), request.expected)
             && LastVerdict(c.limits, s.calls + [Call(name, s.now)]).Admitted?
             && HopsAllowed(c.engine, snap, chain)
    ensures var s := Run(c, steps);
            var f := Run(c, steps + FreshSteps(id, request, chain, s.now, |kept|));
            var snap := View(s.revisions.meta, s.now);
            && f.history != []
            && f.history[|f.history| - 1] == Connected(id, request, Some(name), Chosen(request, Ips(kept)), snap, snap)
            && f.calls == s.calls + [Call(name, s.now)]
  {
    hide Domain.NormalizeDomain, NameAllowed, Lookup, View, LastVerdict, HopsAllowed, ConnectValidate, Decided,
      Then, Apply, Run, Live, AddressPermitted, PortAllowed, StrictlySorted, PinSteps;
    var s := Run(c, steps);
    var snap, ip := View(s.revisions.meta, s.now), Chosen(request, Ips(kept));
    var opening := [StartConnect(id, request), LookUp(id)];
    var asking := [AdmitConnect(id, s.now), AnswerConnect(id, chain), CheckConnect(id)];
    var rest := PinSteps(id, s.now, |kept|) + [FinishPins(id)] + ([Choose(id)] + [Decide(id), Dialed(id)]);
    RunThen(c, steps, FreshSteps(id, request, chain, s.now, |kept|));
    ThenConcat(c, s, opening, asking + rest);
    Opens(c, s, id, request, name);
    var s1 := Then(c, s, opening);
    ThenConcat(c, s1, asking, rest);
    Asks(c, s1, id, chain);
    var s2 := Then(c, s1, asking);
    KeptAreSorted(c, chain);
    KeptIsPermitted(c, snap, chain, ip);
    NameDecides(c, snap, name, ip, request.port);
    PinsAndDials(c, s2, id, ip);
  }

  lemma KeptIsPermitted(c: Config, snap: Snapshot, chain: Chain, ip: IpAddr)
    requires HopsAllowed(c.engine, snap, chain) && ip in Ips(ConnectValidate(c.engine, c.limits, chain))
    ensures AddressPermitted(c.engine, ip)
  {
    hide AddressPermitted, HopsAllowed, ConnectValidate;
    var kept := ConnectValidate(c.engine, c.limits, chain);
    var k :| 0 <= k < |Ips(kept)| && Ips(kept)[k] == ip;
    ConnectPinsArePinnable(c.engine, snap, c.limits, chain, k);
  }

  // ---- A DNS query ---------------------------------------------------------

  lemma DoesAskDns(c: Config, s: State, id: nat, raw: string, qtype: RecordType, chain: Chain)
    requires c.capacity > 0
    ensures Then(c, s, [StartDns(id, raw, qtype), AdmitDns(id, s.now)]) ==
            AdmitDnsNext(c, StartDnsNext(c, s, id, raw, qtype), id, s.now)
    ensures forall t: State :: Then(c, t, [AnswerDns(id, chain), CheckDns(id)]) ==
              CheckDnsNext(c, AnswerDnsNext(c, t, id, chain), id)
  {
    hide StartDnsNext, AdmitDnsNext, AnswerDnsNext, CheckDnsNext, Then;
    TwoSteps(c, s, StartDns(id, raw, qtype), AdmitDns(id, s.now));
    forall t: State
      ensures Then(c, t, [AnswerDns(id, chain), CheckDns(id)]) == CheckDnsNext(c, AnswerDnsNext(c, t, id, chain), id)
    {
      TwoSteps(c, t, AnswerDns(id, chain), CheckDns(id));
    }
  }

  lemma DoesPinDns(c: Config, s: State, id: nat, time: nat)
    requires c.capacity > 0
    ensures Apply(c, s, PinDns(id, time)) == PinDnsNext(c, s, id, time)
  {
    hide PinDnsNext;
  }

  lemma DoesReply(c: Config, s: State, id: nat)
    requires c.capacity > 0
    ensures Apply(c, s, ReplyDns(id)) == ReplyDnsNext(c, s, id)
  {
    hide ReplyDnsNext;
  }

  function PinDnsSteps(id: nat, now: nat, n: nat): (r: seq<Step>)
    ensures |r| == n
  {
    if n == 0 then [] else PinDnsSteps(id, now, n - 1) + [PinDns(id, now)]
  }

  lemma {:induction false} PinsAllDns(c: Config, s: State, id: nat, n: nat)
    requires c.capacity > 0 && id in s.tasks && s.tasks[id].DnsPinning? && s.tasks[id].pinned == 0
    requires n <= |s.tasks[id].ips|
    ensures var f := Then(c, s, PinDnsSteps(id, s.now, n));
            f.now == s.now && f.calls == s.calls && f.tasks == s.tasks[id := s.tasks[id].(pinned := n)]
  {
    hide Apply, Then;
    if n == 0 {
      ThenNone(c, s);
      assert s.tasks[id := s.tasks[id].(pinned := 0)] == s.tasks;
    } else {
      PinsAllDns(c, s, id, n - 1);
      var f := Then(c, s, PinDnsSteps(id, s.now, n - 1));
      ThenOne(c, s, PinDnsSteps(id, s.now, n - 1), PinDns(id, s.now));
      DoesPinDns(c, f, id, s.now);
      hide Authorize;
      assert PinDnsNext(c, f, id, s.now).tasks == f.tasks[id := s.tasks[id].(pinned := n)];
    }
  }

  /** From the question to a validated answer. */
  lemma AsksDns(c: Config, s: State, id: nat, raw: string, name: string, qtype: RecordType, chain: Chain)
    requires c.capacity > 0 && id !in s.tasks && qtype in c.limits.allowedRecordTypes
    requires Domain.NormalizeDomain(raw) == Success(name)
    requires var snap := View(s.revisions.meta, s.now);
             && NameAllowed(c, snap, name) && LastVerdict(c.limits, s.calls + [Call(name, s.now)]).Admitted?
             && DnsValidate(c.engine, snap, c.limits, chain, qtype).Success?
    ensures var snap := View(s.revisions.meta, s.now);
            var (ips, ttl) := DnsValidate(c.engine, snap, c.limits, chain, qtype).value;
            var f := Then(c, s, [StartDns(id, raw, qtype), AdmitDns(id, s.now)] + [AnswerDns(id, chain), CheckDns(id)]);
            && f.now == s.now && f.calls == s.calls + [Call(name, s.now)] && id in f.tasks
            && f.tasks[id] == DnsPinning(snap, name, qtype, |s.history| + 1, ips, ttl, 0)
  {
    hide Domain.NormalizeDomain, NameAllowed, View, LastVerdict, DnsValidate, Apply, Then;
    var snap := View(s.revisions.meta, s.now);
    var opening, closing := [StartDns(id, raw, qtype), AdmitDns(id, s.now)], [AnswerDns(id, chain), CheckDns(id)];
    ThenConcat(c, s, opening, closing);
    DoesAskDns(c, s, id, raw, qtype, chain);
    var s1 := StartDnsNext(c, s, id, raw, qtype);
    assert s1 == Put(s, id, DnsStarted(snap, raw, qtype));
    hide StartDnsNext;
    var s2 := AdmitDnsNext(c, s1, id, s.now);
    assert s2.tasks[id] == DnsAsking(snap, raw, name, qtype) && |s2.history| == |s.history| + 1;
    assert s2.now == s.now && s2.revisions == s.revisions && s2.calls == s.calls + [Call(name, s.now)];
    hide AdmitDnsNext;
    var s3 := AnswerDnsNext(c, s2, id, chain);
    assert s3.history[|s2.history|] == Answered(id, raw, name, chain);
  }

  /** In any reachable state an allowed query that the budget admits, with an answer that
      passes validation, is replied to with exactly the validated addresses, each pinned
      before, for the charge of one query. */
  lemma DnsQueryReplied(c: Config, steps: seq<Step>, id: nat, raw: string, name: string, qtype: RecordType,
                        chain: Chain)
    requires c.capacity > 0 && id !in Run(c, steps).tasks && qtype in c.limits.allowedRecordTypes
    requires Domain.NormalizeDomain(raw) == Success(name)
    requires var s := Run(c, steps);
             var snap := View(s.revisions.meta, s.now);
             && NameAllowed(c, snap, name) && LastVerdict(c.limits, s.calls + [Call(name, s.now)]).Admitted?
             && DnsValidate(c.engine, snap, c.limits, chain, qtype).Success?
    ensures var s := Run(c, steps);
            var ips := DnsValidate(c.engine, View(s.revisions.meta, s.now), c.limits, chain, qtype).value.0;
            exists more ::
              var f := Run(c, steps + more);
              && f.history != [] && f.history[|f.history| - 1] == Replied(id, name, ips)
              && f.calls == s.calls + [Call(name, s.now)]
  {
    hide Domain.NormalizeDomain, NameAllowed, View, LastVerdict, DnsValidate, Apply, Then, Run, PinDnsSteps;
    var s := Run(c, steps);
    var asking := [StartDns(id, raw, qtype), AdmitDns(id, s.now)] + [AnswerDns(id, chain), CheckDns(id)];
    AsksDns(c, s, id, raw, name, qtype, chain);
    var s1 := Then(c, s, asking);
    var pins := PinDnsSteps(id, s1.now, |s1.tasks[id].ips|);
    PinsAllDns(c, s1, id, |s1.tasks[id].ips|);
    var s2 := Then(c, s1, pins);
    ThenOne(c, s1, pins, ReplyDns(id));
    DoesReply(c, s2, id);
    ThenConcat(c, s, asking, pins + [ReplyDns(id)]);
    RunThen(c, steps, asking + (pins + [ReplyDns(id)]));
  }
}
