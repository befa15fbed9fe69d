/** The two egress brokers as one step system: DNS queries and CONNECT requests
    interleave with clock ticks and scope refreshes over one authorization
    cache and one budget guard. */
module PinProtocol {
  import opened Prelude
  import opened Address
  import opened Policy
  import opened DnsBudget
  import opened Resolution
  import opened AuthorizationCache
  import Domain

  datatype Config = Config(engine: Engine, limits: Limits, capacity: nat)

  datatype Target = Hostname(host: string) | Direct(ip: IpAddr)

  /** A CONNECT request as the client sent it. */
  datatype Request = Request(target: Target, port: nat, expected: Option<IpAddr>)

  /** Where a request in flight stands. Every task holds its own snapshot. */
  datatype Task =
    | DnsStarted(snap: Snapshot, raw: string, qtype: RecordType)
    | DnsAsking(snap: Snapshot, raw: string, name: string, qtype: RecordType)
    | DnsAnswered(snap: Snapshot, name: string, qtype: RecordType, answer: nat)
    | DnsPinning(snap: Snapshot, name: string, qtype: RecordType, answer: nat, ips: seq<IpAddr>, ttlSecs: nat,
        pinned: nat)
    | ConnStarted(snap: Snapshot, request: Request)
    | ConnLooked(snap: Snapshot, request: Request, name: string, candidates: seq<IpAddr>)
    | ConnAsking(snap: Snapshot, request: Request, name: string, candidates: seq<IpAddr>)
    | ConnAnswered(snap: Snapshot, request: Request, name: string, candidates: seq<IpAddr>, answer: nat)
    | ConnPinning(snap: Snapshot, request: Request, name: string, candidates: seq<IpAddr>, answer: nat,
                  records: seq<Record>, done: nat)
    | ConnReady(snap: Snapshot, request: Request, name: string, candidates: seq<IpAddr>)
    | ConnChosen(snap: Snapshot, request: Request, via: Option<string>, ip: IpAddr)
    | ConnDialing(snap: Snapshot, request: Request, via: Option<string>, ip: IpAddr)
    | Finished(snap: Snapshot)

  /** What happened, in order; the record the safety statements speak about. */
  datatype Event =
    | Asked(owner: nat, name: string, snap: Snapshot, at: nat)
    | Answered(owner: nat, asked: string, name: string, chain: Chain)
    | Pinned(owner: nat, name: string, ip: IpAddr, snap: Snapshot, answer: nat, ttlSecs: nat, at: nat)
    | Looked(owner: nat, name: string, at: nat)
    | Replied(owner: nat, name: string, ips: seq<IpAddr>)
    | Connected(owner: nat, request: Request, via: Option<string>, ip: IpAddr, snap: Snapshot, inForce: Snapshot)

  datatype State = State(
    now: nat,
    revisions: Revisions,
    cache: Entries,
    calls: seq<Call>,
    tasks: map<nat, Task>,
    history: seq<Event>)

  const INITIAL := State(0, NO_REVISIONS, map[], [], map[], [])

  datatype Step =
    | Tick(delta: nat)
    | Scope(refresh: RefreshStep)
    | StartDns(id: nat, raw: string, qtype: RecordType)
    | AdmitDns(id: nat, time: nat)
    | AnswerDns(id: nat, chain: Chain)
    | CheckDns(id: nat)
    | PinDns(id: nat, time: nat)
    | ReplyDns(id: nat)
    | StartConnect(id: nat, request: Request)
    | LookUp(id: nat)
    | UseDirect(id: nat)
    | UseCached(id: nat)
    | AdmitConnect(id: nat, time: nat)
    | AnswerConnect(id: nat, chain: Chain)
    | FailConnect(id: nat)
    | CheckConnect(id: nat)
    | PinConnect(id: nat, time: nat)
    | FinishPins(id: nat)
    | Choose(id: nat)
    | Decide(id: nat)
    | Dialed(id: nat)
    | Stop(id: nat)

  // ---- Steps ---------------------------------------------------------------

  function Put(s: State, id: nat, t: Task): (r: State) {
    s.(tasks := s.tasks[id := t])
  }

  function Note(s: State, e: Event): (r: State) {
    s.(history := s.history + [e])
  }

  /** A name may reach the upstream: structurally fine and allowed by domain policy. */
  predicate NameAllowed(c: Config, snap: Snapshot, name: string) {
    StructureVerdict(c.limits, name).None? && EvaluateDomainName(c.engine, snap, name) == Success(true)
  }

  /** Both brokers charge the same guard; the time they pass was read a little
      before the guard's lock was taken. */
  ghost function Admitting(c: Config, s: State, id: nat, name: string, snap: Snapshot, time: nat,
      next: Task): (r: State) {
    if time > s.now then s
    else
      var calls := s.calls + [Call(name, time)];
      var charged := s.(calls := calls);
      if LastVerdict(c.limits, calls).Admitted?
      then Put(Note(charged, Asked(id, name, snap, time)), id, next)
      else Put(charged, id, Finished(snap))
  }

  /** One `authorize_for_revision`, with a time read before the cache lock. */
  ghost function Pinning(c: Config, s: State, id: nat, name: string, ip: IpAddr, snap: Snapshot,
                         answer: nat, ttlSecs: nat, time: nat): (r: State)
    requires c.capacity > 0
  {
    Note(s.(cache := Authorize(s.cache, c.capacity, Key(name, ip), time, ttlSecs * SECOND, snap.revision)),
        Pinned(id, name, ip, snap, answer, ttlSecs, time))
  }

  ghost function StartDnsNext(c: Config, s: State, id: nat, raw: string, qtype: RecordType): (r: State) {
    if id in s.tasks || qtype !in c.limits.allowedRecordTypes then s
    else Put(s, id, DnsStarted(View(s.revisions.meta, s.now), raw, qtype))
  }

  ghost function AdmitDnsNext(c: Config, s: State, id: nat, time: nat): (r: State) {
    if !(id in s.tasks && s.tasks[id].DnsStarted?) then s
    else
      var t := s.tasks[id];
      var name := Domain.NormalizeDomain(t.raw);
      if name.Failure? || !NameAllowed(c, t.snap, name.value) then Put(s, id, Finished(t.snap))
      else Admitting(c, s, id, name.value, t.snap, time, DnsAsking(t.snap, t.raw, name.value, t.qtype))
  }

  ghost function AnswerDnsNext(c: Config, s: State, id: nat, chain: Chain): (r: State) {
    if !(id in s.tasks && s.tasks[id].DnsAsking?) then s
    else
      var t := s.tasks[id];
      Put(Note(s, Answered(id, t.raw, t.name, chain)), id, DnsAnswered(t.snap, t.name, t.qtype, |s.history|))
  }

  ghost function CheckDnsNext(c: Config, s: State, id: nat): (r: State) {
    if !(id in s.tasks && s.tasks[id].DnsAnswered?) then s
    else
      var t := s.tasks[id];
      if !(t.answer < |s.history| && s.history[t.answer].Answered?) then s
      else
        var verdict := DnsValidate(c.engine, t.snap, c.limits, s.history[t.answer].chain, t.qtype);
        if verdict.Failure? || !IsCurrent(s.revisions.meta, s.now, t.snap) then Put(s, id, Finished(t.snap))
        else Put(s, id, DnsPinning(t.snap, t.name, t.qtype, t.answer, verdict.value.0, verdict.value.1, 0))
  }

  ghost function PinDnsNext(c: Config, s: State, id: nat, time: nat): (r: State)
    requires c.capacity > 0
  {
    if !(id in s.tasks && s.tasks[id].DnsPinning?) || time > s.now then s
    else
      var t := s.tasks[id];
      if t.pinned >= |t.ips| then s
      else Put(Pinning(c, s, id, t.name, t.ips[t.pinned], t.snap, t.answer, t.ttlSecs, time), id,
               t.(pinned := t.pinned + 1))
  }

  ghost function ReplyDnsNext(c: Config, s: State, id: nat): (r: State) {
    if !(id in s.tasks && s.tasks[id].DnsPinning?) then s
    else
      var t := s.tasks[id];
      if t.pinned < |t.ips| then s
      else Put(Note(s, Replied(id, t.name, t.ips)), id, Finished(t.snap))
  }

  predicate NeedFresh(candidates: seq<IpAddr>, expected: Option<IpAddr>) {
    candidates == [] || (expected.Some? && expected.value !in candidates)
  }

  ghost function StartConnectNext(c: Config, s: State, id: nat, request: Request): (r: State) {
    if id in s.tasks then s else Put(s, id, ConnStarted(View(s.revisions.meta, s.now), request))
  }

  ghost function LookUpNext(c: Config, s: State, id: nat): (r: State) {
    if !(id in s.tasks && s.tasks[id].ConnStarted? && s.tasks[id].request.target.Hostname?) then s
    else
      var t := s.tasks[id];
      var name := Domain.NormalizeDomain(t.request.target.host);
      if name.Failure? || !NameAllowed(c, t.snap, name.value) then Put(s, id, Finished(t.snap))
      else
        Put(Note(s.(cache := Live(s.cache, s.now)), Looked(id, name.value, s.now)), id,
            ConnLooked(t.snap, t.request, name.value, Lookup(s.cache, name.value, t.snap.revision, s.now)))
  }

  ghost function UseDirectNext(c: Config, s: State, id: nat): (r: State) {
    if !(id in s.tasks && s.tasks[id].ConnStarted? && s.tasks[id].request.target.Direct?) then s
    else
      var t := s.tasks[id];
      if t.request.expected.Some? && t.request.expected.value != t.request.target.ip then Put(s, id, Finished(t.snap))
      else Put(s, id, ConnChosen(t.snap, t.request, None, t.request.target.ip))
  }

  ghost function UseCachedNext(c: Config, s: State, id: nat): (r: State) {
    if !(id in s.tasks && s.tasks[id].ConnLooked?) then s
    else
      var t := s.tasks[id];
      if NeedFresh(t.candidates, t.request.expected) && (c.engine.allowDns || t.candidates == []) then s
      else Put(s, id, ConnReady(t.snap, t.request, t.name, t.candidates))
  }

  ghost function AdmitConnectNext(c: Config, s: State, id: nat, time: nat): (r: State) {
    if !(id in s.tasks && s.tasks[id].ConnLooked?) then s
    else
      var t := s.tasks[id];
      if !NeedFresh(t.candidates, t.request.expected) || !c.engine.allowDns then s
      else Admitting(c, s, id, t.name, t.snap, time, ConnAsking(t.snap, t.request, t.name, t.candidates))
  }

  ghost function AnswerConnectNext(c: Config, s: State, id: nat, chain: Chain): (r: State) {
    if !(id in s.tasks && s.tasks[id].ConnAsking?) then s
    else
      var t := s.tasks[id];
      Put(Note(s, Answered(id, t.name + ".", t.name, chain)), id,
          ConnAnswered(t.snap, t.request, t.name, t.candidates, |s.history|))
  }

  ghost function FailConnectNext(c: Config, s: State, id: nat): (r: State) {
    if !(id in s.tasks && s.tasks[id].ConnAsking?) then s
    else
      var t := s.tasks[id];
      if t.candidates == [] then Put(s, id, Finished(t.snap))
      else Put(s, id, ConnReady(t.snap, t.request, t.name, t.candidates))
  }

  ghost function CheckConnectNext(c: Config, s: State, id: nat): (r: State) {
    if !(id in s.tasks && s.tasks[id].ConnAnswered?) then s
    else
      var t := s.tasks[id];
      if !(t.answer < |s.history| && s.history[t.answer].Answered?) then s
      else
        var chain := s.history[t.answer].chain;
        if !HopsAllowed(c.engine, t.snap, chain) || !IsCurrent(s.revisions.meta, s.now, t.snap)
        then Put(s, id, Finished(t.snap))
        else
          Put(s, id, ConnPinning(t.snap, t.request, t.name, t.candidates, t.answer,
                                 ConnectValidate(c.engine, c.limits, chain), 0))
  }

  ghost function PinConnectNext(c: Config, s: State, id: nat, time: nat): (r: State)
    requires c.capacity > 0
  {
    if !(id in s.tasks && s.tasks[id].ConnPinning?) || time > s.now then s
    else
      var t := s.tasks[id];
      if t.done >= |t.records| then s
      else
        var r := t.records[t.done];
        Put(Pinning(c, s, id, t.name, r.ip, t.snap, t.answer, CapTtl(c.engine, r.ttlSecs), time), id,
            t.(done := t.done + 1))
  }

  ghost function FinishPinsNext(c: Config, s: State, id: nat): (r: State) {
    if !(id in s.tasks && s.tasks[id].ConnPinning?) then s
    else
      var t := s.tasks[id];
      if t.done < |t.records| then s
      else
        Put(s, id, ConnReady(t.snap, t.request, t.name,
                             Sorted(Elements(t.candidates) + Elements(Ips(t.records)))))
  }

  /** Choosing the address, the port-aware decision, the dial and the re-check. */
  ghost function ChooseNext(c: Config, s: State, id: nat): (r: State) {
    if !(id in s.tasks && s.tasks[id].ConnReady?) then s
    else
      var t := s.tasks[id];
      if t.candidates == [] || (t.request.expected.Some? && t.request.expected.value !in t.candidates)
      then Put(s, id, Finished(t.snap))
      else
        var ip := if t.request.expected.Some? then t.request.expected.value else t.candidates[0];
        Put(s, id, ConnChosen(t.snap, t.request, Some(t.name), ip))
  }

  ghost function DecideNext(c: Config, s: State, id: nat): (r: State) {
    if !(id in s.tasks && s.tasks[id].ConnChosen?) then s
    else
      var t := s.tasks[id];
      if Decided(c, t.snap, t.via, t.ip, t.request.port) && IsCurrent(s.revisions.meta, s.now, t.snap)
      then Put(s, id, ConnDialing(t.snap, t.request, t.via, t.ip))
      else Put(s, id, Finished(t.snap))
  }

  ghost function DialedNext(c: Config, s: State, id: nat): (r: State) {
    if !(id in s.tasks && s.tasks[id].ConnDialing?) then s
    else
      var t := s.tasks[id];
      if !IsCurrent(s.revisions.meta, s.now, t.snap) then Put(s, id, Finished(t.snap))
      else
        Put(Note(s, Connected(id, t.request, t.via, t.ip, t.snap, View(s.revisions.meta, s.now))), id,
            Finished(t.snap))
  }

  ghost function StopNext(c: Config, s: State, id: nat): (r: State) {
    if id in s.tasks then Put(s, id, Finished(s.tasks[id].snap)) else s
  }

  predicate Decided(c: Config, snap: Snapshot, via: Option<string>, ip: IpAddr, port: nat) {
    match via
    case Some(n) => DecideHostname(c.engine, snap, n, ip, port, Tcp)
    case None => DecideDirectIp(c.engine, snap, ip, port, Tcp)
  }

  /** One step; a step that is not enabled changes nothing. */
  ghost function Apply(c: Config, s: State, step: Step): (r: State)
    requires c.capacity > 0
  {
    match step
    case Tick(delta) => s.(now := s.now + delta)
    case Scope(refresh) => s.(revisions := Refresh(s.revisions, refresh, s.now))
    case StartDns(id, raw, qtype) => StartDnsNext(c, s, id, raw, qtype)
    case AdmitDns(id, time) => AdmitDnsNext(c, s, id, time)
    case AnswerDns(id, chain) => AnswerDnsNext(c, s, id, chain)
    case CheckDns(id) => CheckDnsNext(c, s, id)
    case PinDns(id, time) => PinDnsNext(c, s, id, time)
    case ReplyDns(id) => ReplyDnsNext(c, s, id)
    case StartConnect(id, request) => StartConnectNext(c, s, id, request)
    case LookUp(id) => LookUpNext(c, s, id)
    case UseDirect(id) => UseDirectNext(c, s, id)
    case UseCached(id) => UseCachedNext(c, s, id)
    case AdmitConnect(id, time) => AdmitConnectNext(c, s, id, time)
    case AnswerConnect(id, chain) => AnswerConnectNext(c, s, id, chain)
    case FailConnect(id) => FailConnectNext(c, s, id)
    case CheckConnect(id) => CheckConnectNext(c, s, id)
    case PinConnect(id, time) => PinConnectNext(c, s, id, time)
    case FinishPins(id) => FinishPinsNext(c, s, id)
    case Choose(id) => ChooseNext(c, s, id)
    case Decide(id) => DecideNext(c, s, id)
    case Dialed(id) => DialedNext(c, s, id)
    case Stop(id) => StopNext(c, s, id)
  }

  /** The state after any sequence of steps. */
  ghost function Run(c: Config, steps: seq<Step>): (s: State)
    requires c.capacity > 0
  {
    if steps == [] then INITIAL else Apply(c, Run(c, steps[..|steps| - 1]), steps[|steps| - 1])
  }

  // ---- Justification -------------------------------------------------------

  /** A pin goes back to an answer, asked by the same request for exactly this
      name, that allows it under the pin's own snapshot. */
  ghost predicate PinJustified(c: Config, h: seq<Event>, j: nat)
    requires j < |h| && h[j].Pinned?
  {
    var e := h[j];
    && e.answer < j && h[e.answer].Answered?
    && h[e.answer].owner == e.owner && h[e.answer].name == e.name
    && Domain.NormalizeDomain(h[e.answer].asked) == Success(e.name)
    && Pinnable(c.engine, e.snap, c.limits, h[e.answer].chain, e.ip, e.ttlSecs)
  }

  /** Request `owner` may use `ip` for `name`: pinned under an equal snapshot, by
      this very request or live when this request looked. */
  ghost predicate MayUse(h: seq<Event>, owner: nat, name: string, ip: IpAddr, snap: Snapshot) {
    exists j: nat | j < |h| :: UsablePin(h, j, owner, name, ip, snap)
  }

  ghost predicate UsablePin(h: seq<Event>, j: nat, owner: nat, name: string, ip: IpAddr, snap: Snapshot)
    requires j < |h|
  {
    && h[j].Pinned? && h[j].name == name && h[j].ip == ip && h[j].snap == snap
    && (h[j].owner == owner || exists k: nat | k < |h| :: LiveAtLookup(h, j, k, owner, name))
  }

  ghost predicate LiveAtLookup(h: seq<Event>, j: nat, k: nat, owner: nat, name: string)
    requires j < |h| && k < |h| && h[j].Pinned?
  {
    && j < k && h[k].Looked? && h[k].owner == owner && h[k].name == name
    && h[j].at <= h[k].at < h[j].at + h[j].ttlSecs * SECOND
  }

  ghost predicate RepliedFromPins(h: seq<Event>, owner: nat, name: string, ips: seq<IpAddr>) {
    forall k | 0 <= k < |ips| :: OnRecord(h, owner, name, ips[k])
  }

  ghost predicate OnRecord(h: seq<Event>, owner: nat, name: string, ip: IpAddr) {
    exists j: nat | j < |h| :: PinnedBy(h, j, owner, name, ip)
  }

  ghost predicate PinnedBy(h: seq<Event>, j: nat, owner: nat, name: string, ip: IpAddr)
    requires j < |h|
  {
    h[j].Pinned? && h[j].owner == owner && h[j].name == name && h[j].ip == ip
  }

  /** A connection handed out is safe: the policy in force at that moment is the
      request's snapshot and allows it; a hostname connection goes to an address
      the request may use for exactly the normalized host. */
  ghost predicate ConnectionSafe(c: Config, h: seq<Event>, i: nat)
    requires i < |h| && h[i].Connected?
  {
    var e := h[i];
    && e.snap == e.inForce
    && Decided(c, e.inForce, e.via, e.ip, e.request.port)
    && (e.request.expected.Some? ==> e.ip == e.request.expected.value)
    && match e.via
       case None => e.request.target == Direct(e.ip)
       case Some(name) =>
         && e.request.target.Hostname?
         && Domain.NormalizeDomain(e.request.target.host) == Success(name)
         && MayUse(h, e.owner, name, e.ip, e.snap)
  }
}
