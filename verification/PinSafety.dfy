/** Safety of the brokers over every run: what each step keeps, and what follows
    for every connection, DNS reply and upstream query. */
module PinSafety {
  import opened Prelude
  import opened Address
  import opened Policy
  import opened DnsBudget
  import opened Resolution
  import opened AuthorizationCache
  import opened PinProtocol
  import opened PinTimeline
  import Domain

  // ---- The invariant -------------------------------------------------------

  ghost predicate EventOk(c: Config, h: seq<Event>, i: nat)
    requires i < |h|
  {
    match h[i]
    case Asked(_, name, snap, _) => NameAllowed(c, snap, name) && Domain.IsNormalized(name)
    case Answered(owner, asked, name, _) => Domain.NormalizeDomain(asked) == Success(name) && PaidFor(h, owner, name)
    case Pinned(_, _, _, _, _, _, _) => PinJustified(c, h, i)
    case Looked(_, _, _) => true
    case Replied(owner, name, ips) => RepliedFromPins(h, owner, name, ips)
    case Connected(_, _, _, _, _, _) => ConnectionSafe(c, h, i)
  }

  ghost predicate HistoryOk(c: Config, h: seq<Event>) {
    forall i: nat | i < |h| :: EventOk(c, h, i)
  }

  /** Snapshots on record are genuine and their times are past. */
  ghost predicate StampsOk(installed: map<nat, Policy.Scope>, h: seq<Event>, now: nat) {
    forall j: nat | j < |h| && h[j].Pinned? :: Genuine(installed, h[j].snap) && h[j].at <= now
  }

  /** Each cache entry is the last trace of a recorded pin. */
  ghost predicate CacheOk(h: seq<Event>, cache: Entries) {
    forall k | k in cache :: exists j: nat | j < |h| :: Backed(h, j, k, cache[k])
  }

  ghost predicate Backed(h: seq<Event>, j: nat, k: Key, pin: Pin)
    requires j < |h|
  {
    && h[j].Pinned? && h[j].name == k.name && h[j].ip == k.ip
    && h[j].snap.revision == pin.revision && h[j].at + h[j].ttlSecs * SECOND == pin.expiresAt
  }

  ghost predicate AllUsable(h: seq<Event>, id: nat, name: string, snap: Snapshot, ips: seq<IpAddr>) {
    forall i | 0 <= i < |ips| :: MayUse(h, id, name, ips[i], snap)
  }

  ghost predicate AnswerFor(h: seq<Event>, id: nat, name: string, answer: nat) {
    && answer < |h| && h[answer].Answered? && h[answer].owner == id && h[answer].name == name
    && Domain.NormalizeDomain(h[answer].asked) == Success(name)
  }

  /** The request has asked upstream for this name, on the budget. */
  ghost predicate PaidFor(h: seq<Event>, id: nat, name: string) {
    exists a: nat | a < |h| :: h[a].Asked? && h[a].owner == id && h[a].name == name
  }

  ghost predicate HostOk(request: Request, name: string) {
    && request.target.Hostname? && Domain.NormalizeDomain(request.target.host) == Success(name)
    && Domain.IsNormalized(name)
  }

  ghost predicate TaskOk(c: Config, installed: map<nat, Policy.Scope>, h: seq<Event>, id: nat, t: Task) {
    && Genuine(installed, t.snap)
    && match t
       case DnsStarted(_, _, qtype) => qtype in c.limits.allowedRecordTypes
       case DnsAsking(_, raw, name, qtype) =>
         qtype in c.limits.allowedRecordTypes && Domain.NormalizeDomain(raw) == Success(name) && PaidFor(h, id, name)
       case DnsAnswered(_, name, qtype, answer) =>
         qtype in c.limits.allowedRecordTypes && AnswerFor(h, id, name, answer)
       case DnsPinning(snap, name, qtype, answer, ips, ttlSecs, pinned) =>
         && qtype in c.limits.allowedRecordTypes && AnswerFor(h, id, name, answer)
         && DnsValidate(c.engine, snap, c.limits, h[answer].chain, qtype) == Success((ips, ttlSecs))
         && pinned <= |ips| && RepliedFromPins(h, id, name, ips[..pinned])
       case ConnStarted(_, _) => true
       case ConnLooked(snap, request, name, candidates) =>
         HostOk(request, name) && NameAllowed(c, snap, name) && AllUsable(h, id, name, snap, candidates)
       case ConnAsking(snap, request, name, candidates) =>
         HostOk(request, name) && AllUsable(h, id, name, snap, candidates) && PaidFor(h, id, name)
       case ConnAnswered(snap, request, name, candidates, answer) =>
         HostOk(request, name) && AllUsable(h, id, name, snap, candidates) && AnswerFor(h, id, name, answer)
       case ConnPinning(snap, request, name, candidates, answer, records, done) =>
         && HostOk(request, name) && AllUsable(h, id, name, snap, candidates) && AnswerFor(h, id, name, answer)
         && HopsAllowed(c.engine, snap, h[answer].chain)
         && records == ConnectValidate(c.engine, c.limits, h[answer].chain)
         && done <= |records| && AllUsable(h, id, name, snap, Ips(records[..done]))
       case ConnReady(snap, request, name, candidates) =>
         HostOk(request, name) && AllUsable(h, id, name, snap, candidates)
       case ConnChosen(snap, request, via, ip) => ChosenOk(h, id, snap, request, via, ip)
       case ConnDialing(snap, request, via, ip) =>
         ChosenOk(h, id, snap, request, via, ip) && Decided(c, snap, via, ip, request.port)
       case Finished(_) => true
  }

  ghost predicate ChosenOk(h: seq<Event>, id: nat, snap: Snapshot, request: Request, via: Option<string>, ip: IpAddr) {
    && (request.expected.Some? ==> ip == request.expected.value)
    && match via
       case None => request.target == Direct(ip)
       case Some(name) => HostOk(request, name) && MayUse(h, id, name, ip, snap)
  }

  ghost predicate TasksOk(c: Config, installed: map<nat, Policy.Scope>, h: seq<Event>, tasks: map<nat, Task>) {
    forall id | id in tasks :: TaskOk(c, installed, h, id, tasks[id])
  }

  /** Every upstream query on record, as the guard call that paid for it. */
  function AskedCalls(h: seq<Event>): (r: seq<Call>) {
    if h == [] then []
    else
      var last := h[|h| - 1];
      AskedCalls(h[..|h| - 1]) + (if last.Asked? then [Call(last.name, last.at)] else [])
  }

  /** The guard calls that were admitted. */
  function AdmittedCalls(l: Limits, calls: seq<Call>): (r: seq<Call>) {
    if calls == [] then []
    else
      AdmittedCalls(l, calls[..|calls| - 1]) +
      (if LastVerdict(l, calls).Admitted? then [calls[|calls| - 1]] else [])
  }

  ghost predicate Inv(c: Config, s: State) {
    && RevisionsValid(s.revisions)
    && |s.cache| <= c.capacity
    && HistoryOk(c, s.history)
    && StampsOk(s.revisions.installed, s.history, s.now)
    && CacheOk(s.history, s.cache)
    && TasksOk(c, s.revisions.installed, s.history, s.tasks)
    && AskedCalls(s.history) == AdmittedCalls(c.limits, s.calls)
  }

  // ---- Facts survive a longer history ---------------------------------------

  lemma MayUseGrows(h: seq<Event>, e: Event, id: nat, name: string, ip: IpAddr, snap: Snapshot)
    requires MayUse(h, id, name, ip, snap)
    ensures MayUse(h + [e], id, name, ip, snap)
  {
    var h' := h + [e];
    var j: nat :| j < |h| && UsablePin(h, j, id, name, ip, snap);
    assert h'[j] == h[j];
    if h[j].owner != id {
      var k: nat :| k < |h| && LiveAtLookup(h, j, k, id, name);
      assert h'[k] == h[k];
      assert LiveAtLookup(h', j, k, id, name);
    }
    assert UsablePin(h', j, id, name, ip, snap);
  }

  lemma RepliedGrows(h: seq<Event>, e: Event, id: nat, name: string, ips: seq<IpAddr>)
    requires RepliedFromPins(h, id, name, ips)
    ensures RepliedFromPins(h + [e], id, name, ips)
  {
    var h' := h + [e];
    forall k | 0 <= k < |ips| ensures OnRecord(h', id, name, ips[k]) {
      var j: nat :| j < |h| && PinnedBy(h, j, id, name, ips[k]);
      assert h'[j] == h[j];
      assert PinnedBy(h', j, id, name, ips[k]);
    }
  }

  lemma PaidForGrows(h: seq<Event>, e: Event, id: nat, name: string)
    requires PaidFor(h, id, name)
    ensures PaidFor(h + [e], id, name)
  {
    var a: nat :| a < |h| && h[a].Asked? && h[a].owner == id && h[a].name == name;
    assert (h + [e])[a] == h[a];
  }

  lemma EventGrows(c: Config, h: seq<Event>, e: Event, i: nat)
    requires i < |h| && EventOk(c, h, i)
    ensures EventOk(c, h + [e], i)
  {
    var h' := h + [e];
    assert h'[i] == h[i];
    match h[i] {
      case Answered(owner, _, name, _) => PaidForGrows(h, e, owner, name);
      case Pinned(_, _, _, _, answer, _, _) => assert h'[answer] == h[answer];
      case Replied(owner, name, ips) => RepliedGrows(h, e, owner, name, ips);
      case Connected(owner, _, via, ip, snap, _) =>
        if via.Some? {
          MayUseGrows(h, e, owner, via.value, ip, snap);
        }
      case _ =>
    }
  }

  lemma HistoryGrows(c: Config, h: seq<Event>, e: Event)
    requires HistoryOk(c, h) && EventOk(c, h + [e], |h|)
    ensures HistoryOk(c, h + [e])
  {
    hide EventOk;
    var h' := h + [e];
    forall i: nat | i < |h'| ensures EventOk(c, h', i) {
      if i < |h| {
        EventGrows(c, h, e, i);
      }
    }
  }

  lemma CacheGrows(h: seq<Event>, e: Event, cache: Entries)
    requires CacheOk(h, cache)
    ensures CacheOk(h + [e], cache)
  {
    var h' := h + [e];
    forall k | k in cache ensures exists j: nat | j < |h'| :: Backed(h', j, k, cache[k]) {
      var j: nat :| j < |h| && Backed(h, j, k, cache[k]);
      assert h'[j] == h[j];
      assert Backed(h', j, k, cache[k]);
    }
  }

  lemma AllUsableGrows(h: seq<Event>, e: Event, id: nat, name: string, snap: Snapshot, ips: seq<IpAddr>)
    requires AllUsable(h, id, name, snap, ips)
    ensures AllUsable(h + [e], id, name, snap, ips)
  {
    hide MayUse;
    forall i | 0 <= i < |ips| ensures MayUse(h + [e], id, name, ips[i], snap) {
      MayUseGrows(h, e, id, name, ips[i], snap);
    }
  }

  lemma AnswerGrows(h: seq<Event>, e: Event, id: nat, name: string, answer: nat)
    requires AnswerFor(h, id, name, answer)
    ensures AnswerFor(h + [e], id, name, answer) && (h + [e])[answer] == h[answer]
  {
  }

  lemma TaskGrows(c: Config, installed: map<nat, Policy.Scope>, h: seq<Event>, e: Event, id: nat, t: Task)
    requires TaskOk(c, installed, h, id, t)
    ensures TaskOk(c, installed, h + [e], id, t)
  {
    hide AllUsable, RepliedFromPins, AnswerFor, PaidFor, MayUse, Genuine, HostOk, NameAllowed, DnsValidate,
      ConnectValidate, HopsAllowed, Decided;
    match t {
      case DnsAsking(_, _, name, _) => PaidForGrows(h, e, id, name);
      case DnsAnswered(_, name, _, answer) => AnswerGrows(h, e, id, name, answer);
      case DnsPinning(_, name, _, answer, ips, _, pinned) =>
        AnswerGrows(h, e, id, name, answer);
        RepliedGrows(h, e, id, name, ips[..pinned]);
      case ConnLooked(snap, _, name, candidates) => AllUsableGrows(h, e, id, name, snap, candidates);
      case ConnAsking(snap, _, name, candidates) =>
        AllUsableGrows(h, e, id, name, snap, candidates);
        PaidForGrows(h, e, id, name);
      case ConnAnswered(snap, _, name, candidates, answer) =>
        AllUsableGrows(h, e, id, name, snap, candidates);
        AnswerGrows(h, e, id, name, answer);
      case ConnPinning(snap, _, name, candidates, answer, records, done) =>
        AllUsableGrows(h, e, id, name, snap, candidates);
        AllUsableGrows(h, e, id, name, snap, Ips(records[..done]));
        AnswerGrows(h, e, id, name, answer);
      case ConnReady(snap, _, name, candidates) => AllUsableGrows(h, e, id, name, snap, candidates);
      case ConnChosen(snap, _, via, ip) => if via.Some? { MayUseGrows(h, e, id, via.value, ip, snap); }
      case ConnDialing(snap, _, via, ip) => if via.Some? { MayUseGrows(h, e, id, via.value, ip, snap); }
      case _ =>
    }
  }

  lemma TasksGrow(c: Config, installed: map<nat, Policy.Scope>, h: seq<Event>, e: Event, tasks: map<nat, Task>)
    requires TasksOk(c, installed, h, tasks)
    ensures TasksOk(c, installed, h + [e], tasks)
  {
    hide TaskOk;
    forall id | id in tasks ensures TaskOk(c, installed, h + [e], id, tasks[id]) {
      TaskGrows(c, installed, h, e, id, tasks[id]);
    }
  }

  lemma AskedGrows(h: seq<Event>, e: Event)
    ensures AskedCalls(h + [e]) == AskedCalls(h) + (if e.Asked? then [Call(e.name, e.at)] else [])
  {
    assert (h + [e])[..|h|] == h;
  }

  /** Appending an event that is in order keeps the invariant. */
  lemma NoteKeeps(c: Config, s: State, e: Event)
    requires Inv(c, s) && !e.Asked? && EventOk(c, s.history + [e], |s.history|)
    requires e.Pinned? ==> Genuine(s.revisions.installed, e.snap) && e.at <= s.now
    ensures Inv(c, Note(s, e))
  {
    hide EventOk, CacheOk, TasksOk, HistoryOk, RevisionsValid, Genuine;
    HistoryGrows(c, s.history, e);
    CacheGrows(s.history, e, s.cache);
    TasksGrow(c, s.revisions.installed, s.history, e, s.tasks);
    AskedGrows(s.history, e);
  }

  /** Moving one request to a state that is in order keeps the invariant. */
  lemma PutKeeps(c: Config, s: State, id: nat, t: Task)
    requires Inv(c, s) && TaskOk(c, s.revisions.installed, s.history, id, t)
    ensures Inv(c, Put(s, id, t))
  {
    hide TaskOk, CacheOk, HistoryOk, RevisionsValid, StampsOk;
  }

  // ---- Every step keeps the invariant ---------------------------------------

  lemma TickKeeps(c: Config, s: State, delta: nat)
    requires Inv(c, s)
    ensures Inv(c, s.(now := s.now + delta))
  {
    hide TasksOk, CacheOk, HistoryOk, RevisionsValid, Genuine;
  }

  lemma TaskSurvivesRefresh(c: Config, a: map<nat, Policy.Scope>, b: map<nat, Policy.Scope>, h: seq<Event>, id: nat,
      t: Task)
    requires Grows(a, b) && TaskOk(c, a, h, id, t)
    ensures TaskOk(c, b, h, id, t)
  {
    GenuineGrows(a, b, t.snap);
  }

  lemma ScopeKeeps(c: Config, s: State, step: RefreshStep)
    requires Inv(c, s)
    ensures Inv(c, s.(revisions := Refresh(s.revisions, step, s.now)))
  {
    var a, b := s.revisions.installed, Refresh(s.revisions, step, s.now).installed;
    RefreshKeepsRevisions(s.revisions, step, s.now);
    hide TaskOk, CacheOk, HistoryOk, RevisionsValid, Genuine, Refresh;
    forall id | id in s.tasks ensures TaskOk(c, b, s.history, id, s.tasks[id]) {
      TaskSurvivesRefresh(c, a, b, s.history, id, s.tasks[id]);
    }
    forall j: nat | j < |s.history| && s.history[j].Pinned? ensures Genuine(b, s.history[j].snap) {
      GenuineGrows(a, b, s.history[j].snap);
    }
  }

  /** A shared guard call: refused, or admitted and on record as one query. */
  lemma AdmittingKeeps(c: Config, s: State, id: nat, name: string, snap: Snapshot, time: nat, next: Task)
    requires Inv(c, s) && NameAllowed(c, snap, name) && Domain.IsNormalized(name)
    requires Genuine(s.revisions.installed, snap)
    requires TaskOk(c, s.revisions.installed, s.history + [Asked(id, name, snap, time)], id, next)
    ensures Inv(c, Admitting(c, s, id, name, snap, time, next))
  {
    hide Domain.NormalizeDomain, Domain.IsNormalized, Inv, TaskOk, LastVerdict, NameAllowed;
    if time <= s.now {
      var calls := s.calls + [Call(name, time)];
      if LastVerdict(c.limits, calls).Admitted? {
        ChargeKeeps(c, s, Asked(id, name, snap, time));
        PutKeeps(c, Note(s.(calls := calls), Asked(id, name, snap, time)), id, next);
      } else {
        RefusalKeeps(c, s, name, time);
        FinishedOk(c, s.revisions.installed, s.history, id, snap);
        PutKeeps(c, s.(calls := calls), id, Finished(snap));
      }
    }
  }

  lemma ChargeKeeps(c: Config, s: State, e: Event)
    requires Inv(c, s) && e.Asked? && NameAllowed(c, e.snap, e.name) && Domain.IsNormalized(e.name)
    requires LastVerdict(c.limits, s.calls + [Call(e.name, e.at)]).Admitted?
    ensures Inv(c, Note(s.(calls := s.calls + [Call(e.name, e.at)]), e))
  {
    hide CacheOk, TasksOk, HistoryOk, RevisionsValid, NameAllowed, LastVerdict, Domain.IsNormalized;
    var calls := s.calls + [Call(e.name, e.at)];
    assert calls[..|s.calls|] == s.calls;
    AskedGrows(s.history, e);
    HistoryGrows(c, s.history, e);
    CacheGrows(s.history, e, s.cache);
    TasksGrow(c, s.revisions.installed, s.history, e, s.tasks);
  }

  lemma RefusalKeeps(c: Config, s: State, name: string, time: nat)
    requires Inv(c, s) && !LastVerdict(c.limits, s.calls + [Call(name, time)]).Admitted?
    ensures Inv(c, s.(calls := s.calls + [Call(name, time)]))
  {
    hide CacheOk, TasksOk, HistoryOk, RevisionsValid, StampsOk, LastVerdict;
    assert (s.calls + [Call(name, time)])[..|s.calls|] == s.calls;
  }

  lemma FinishedOk(c: Config, installed: map<nat, Policy.Scope>, h: seq<Event>, id: nat, snap: Snapshot)
    requires Genuine(installed, snap)
    ensures TaskOk(c, installed, h, id, Finished(snap))
  {
  }

  lemma FinishKeeps(c: Config, s: State, id: nat)
    requires Inv(c, s) && id in s.tasks
    ensures Inv(c, Put(s, id, Finished(s.tasks[id].snap)))
  {
    assert TaskOk(c, s.revisions.installed, s.history, id, s.tasks[id]);
    FinishedOk(c, s.revisions.installed, s.history, id, s.tasks[id].snap);
    PutKeeps(c, s, id, Finished(s.tasks[id].snap));
  }

  /** One cache write keeps the invariant, and the pin is usable by its writer. */
  lemma PinningKeeps(c: Config, s: State, id: nat, name: string, ip: IpAddr, snap: Snapshot,
                     answer: nat, ttlSecs: nat, time: nat)
    requires Inv(c, s) && c.capacity > 0 && time <= s.now
    requires Genuine(s.revisions.installed, snap) && AnswerFor(s.history, id, name, answer)
    requires Pinnable(c.engine, snap, c.limits, s.history[answer].chain, ip, ttlSecs)
    ensures var r := Pinning(c, s, id, name, ip, snap, answer, ttlSecs, time);
            && Inv(c, r)
            && MayUse(r.history, id, name, ip, snap)
            && OnRecord(r.history, id, name, ip)
  {
    hide Domain.NormalizeDomain, Pinnable;
    var e := Pinned(id, name, ip, snap, answer, ttlSecs, time);
    var h := s.history + [e];
    assert h[answer] == s.history[answer] && h[|s.history|] == e;
    assert PinJustified(c, h, |s.history|);
    NoteKeeps(c, s, e);
    assert UsablePin(h, |s.history|, id, name, ip, snap);
    assert PinnedBy(h, |s.history|, id, name, ip);
    CacheAfterPin(c, s, e);
  }

  lemma CacheAfterPin(c: Config, s: State, e: Event)
    requires c.capacity > 0 && e.Pinned? && CacheOk(s.history + [e], s.cache)
    ensures CacheOk(s.history + [e],
                    Authorize(s.cache, c.capacity, Key(e.name, e.ip), e.at, e.ttlSecs * SECOND, e.snap.revision))
  {
    hide Authorize;
    var h := s.history + [e];
    var key := Key(e.name, e.ip);
    var cache := Authorize(s.cache, c.capacity, key, e.at, e.ttlSecs * SECOND, e.snap.revision);
    forall k | k in cache ensures exists j: nat | j < |h| :: Backed(h, j, k, cache[k]) {
      if k == key {
        assert Backed(h, |s.history|, k, cache[k]);
      }
    }
  }

  lemma StartDnsKeeps(c: Config, s: State, id: nat, raw: string, qtype: RecordType)
    requires Inv(c, s) && c.capacity > 0
    ensures Inv(c, StartDnsNext(c, s, id, raw, qtype))
  {
    hide Domain.NormalizeDomain, Domain.IsNormalized, Inv;
    if id !in s.tasks && qtype in c.limits.allowedRecordTypes {
      var t := DnsStarted(View(s.revisions.meta, s.now), raw, qtype);
      SnapshotNow(c, s);
      PutKeeps(c, s, id, t);
    }
  }

  lemma SnapshotNow(c: Config, s: State)
    requires Inv(c, s)
    ensures Genuine(s.revisions.installed, View(s.revisions.meta, s.now))
  {
    ViewIsGenuine(s.revisions, s.now);
  }

  lemma Current(c: Config, s: State, id: nat)
    requires Inv(c, s) && id in s.tasks
    ensures TaskOk(c, s.revisions.installed, s.history, id, s.tasks[id])
    ensures Genuine(s.revisions.installed, s.tasks[id].snap)
  {
  }

  lemma AdmitDnsKeeps(c: Config, s: State, id: nat, time: nat)
    requires Inv(c, s) && c.capacity > 0
    ensures Inv(c, AdmitDnsNext(c, s, id, time))
  {
    hide Domain.NormalizeDomain, Domain.IsNormalized, Inv, Admitting, NameAllowed;
    if id in s.tasks && s.tasks[id].DnsStarted? {
      var t := s.tasks[id];
      Current(c, s, id);
      var name := Domain.NormalizeDomain(t.raw);
      if name.Failure? || !NameAllowed(c, t.snap, name.value) {
        FinishKeeps(c, s, id);
      } else {
        var e := Asked(id, name.value, t.snap, time);
        assert (s.history + [e])[|s.history|] == e;
        Domain.NormalizeFixpoints(t.raw);
        AdmittingKeeps(c, s, id, name.value, t.snap, time, DnsAsking(t.snap, t.raw, name.value, t.qtype));
      }
    }
  }

  lemma AnswerDnsKeeps(c: Config, s: State, id: nat, chain: Chain)
    requires Inv(c, s) && c.capacity > 0
    ensures Inv(c, AnswerDnsNext(c, s, id, chain))
  {
    hide Domain.NormalizeDomain, Domain.IsNormalized, Inv;
    if id in s.tasks && s.tasks[id].DnsAsking? {
      var t := s.tasks[id];
      Current(c, s, id);
      var e := Answered(id, t.raw, t.name, chain);
      PaidForGrows(s.history, e, id, t.name);
      NoteKeeps(c, s, e);
      var t' := DnsAnswered(t.snap, t.name, t.qtype, |s.history|);
      assert AnswerFor(s.history + [e], id, t.name, |s.history|);
      PutKeeps(c, Note(s, e), id, t');
    }
  }

  lemma CheckDnsKeeps(c: Config, s: State, id: nat)
    requires Inv(c, s) && c.capacity > 0
    ensures Inv(c, CheckDnsNext(c, s, id))
  {
    hide Domain.NormalizeDomain, Domain.IsNormalized, Inv, DnsValidate, IsCurrent, AnswerFor;
    if id in s.tasks && s.tasks[id].DnsAnswered? {
      var t := s.tasks[id];
      Current(c, s, id);
      if t.answer < |s.history| && s.history[t.answer].Answered? {
        var verdict := DnsValidate(c.engine, t.snap, c.limits, s.history[t.answer].chain, t.qtype);
        if verdict.Failure? || !IsCurrent(s.revisions.meta, s.now, t.snap) {
          FinishKeeps(c, s, id);
        } else {
          var t' := DnsPinning(t.snap, t.name, t.qtype, t.answer, verdict.value.0, verdict.value.1, 0);
          assert t'.ips[..0] == [];
          PutKeeps(c, s, id, t');
        }
      }
    }
  }

  lemma OneMoreReplied(h: seq<Event>, id: nat, name: string, ips: seq<IpAddr>, ip: IpAddr)
    requires RepliedFromPins(h, id, name, ips) && OnRecord(h, id, name, ip)
    ensures RepliedFromPins(h, id, name, ips + [ip])
  {
    hide OnRecord;
  }

  lemma PinDnsKeeps(c: Config, s: State, id: nat, time: nat)
    requires Inv(c, s) && c.capacity > 0
    ensures Inv(c, PinDnsNext(c, s, id, time))
  {
    hide Domain.NormalizeDomain, Domain.IsNormalized, Inv, DnsValidate, Pinnable, Authorize, MayUse, OnRecord,
      RepliedFromPins;
    if id in s.tasks && s.tasks[id].DnsPinning? && time <= s.now && s.tasks[id].pinned < |s.tasks[id].ips| {
      var t := s.tasks[id];
      Current(c, s, id);
      var ip := t.ips[t.pinned];
      DnsPinsArePinnable(c.engine, t.snap, c.limits, s.history[t.answer].chain, t.qtype, t.pinned);
      PinningKeeps(c, s, id, t.name, ip, t.snap, t.answer, t.ttlSecs, time);
      var e := Pinned(id, t.name, ip, t.snap, t.answer, t.ttlSecs, time);
      var r := Pinning(c, s, id, t.name, ip, t.snap, t.answer, t.ttlSecs, time);
      assert r.history == s.history + [e];
      RepliedGrows(s.history, e, id, t.name, t.ips[..t.pinned]);
      AnswerGrows(s.history, e, id, t.name, t.answer);
      OneMoreReplied(r.history, id, t.name, t.ips[..t.pinned], ip);
      assert t.ips[..t.pinned + 1] == t.ips[..t.pinned] + [ip];
      PutKeeps(c, r, id, t.(pinned := t.pinned + 1));
    }
  }

  lemma ReplyDnsKeeps(c: Config, s: State, id: nat)
    requires Inv(c, s) && c.capacity > 0
    ensures Inv(c, ReplyDnsNext(c, s, id))
  {
    hide Domain.NormalizeDomain, Domain.IsNormalized, Inv, DnsValidate;
    if id in s.tasks && s.tasks[id].DnsPinning? && s.tasks[id].pinned >= |s.tasks[id].ips| {
      var t := s.tasks[id];
      Current(c, s, id);
      var e := Replied(id, t.name, t.ips);
      assert t.ips[..t.pinned] == t.ips;
      RepliedGrows(s.history, e, id, t.name, t.ips);
      NoteKeeps(c, s, e);
      FinishKeeps(c, Note(s, e), id);
    }
  }

  /** What a lookup returns may be used: each address was pinned, under the
      snapshot the request holds, and that pin is live right now. */
  lemma LookupUsable(c: Config, s: State, id: nat, name: string, snap: Snapshot)
    requires Inv(c, s) && Genuine(s.revisions.installed, snap)
    ensures AllUsable(s.history + [Looked(id, name, s.now)], id, name, snap,
                      Lookup(s.cache, name, snap.revision, s.now))
  {
    hide Lookup, TasksOk, HistoryOk, StrictlySorted;
    var e := Looked(id, name, s.now);
    var h := s.history + [e];
    var ips := Lookup(s.cache, name, snap.revision, s.now);
    forall i | 0 <= i < |ips| ensures MayUse(h, id, name, ips[i], snap) {
      assert ips[i] in ips;
      var k := Key(name, ips[i]);
      assert k in s.cache;
      var j: nat :| j < |s.history| && Backed(s.history, j, k, s.cache[k]);
      assert h[j] == s.history[j] && h[|s.history|] == e;
      assert Genuine(s.revisions.installed, h[j].snap) && h[j].snap == snap;
      assert LiveAtLookup(h, j, |s.history|, id, name);
      assert UsablePin(h, j, id, name, ips[i], snap);
    }
  }

  lemma LiveKeeps(c: Config, s: State)
    requires Inv(c, s)
    ensures Inv(c, s.(cache := Live(s.cache, s.now)))
  {
    LiveSize(s.cache, s.now);
    hide TasksOk, HistoryOk, RevisionsValid, StampsOk;
  }

  lemma LookUpKeeps(c: Config, s: State, id: nat)
    requires Inv(c, s) && c.capacity > 0
    ensures Inv(c, LookUpNext(c, s, id))
  {
    hide Domain.NormalizeDomain, Domain.IsNormalized, Inv, NameAllowed, Lookup, Live, AllUsable, StrictlySorted;
    if id in s.tasks && s.tasks[id].ConnStarted? && s.tasks[id].request.target.Hostname? {
      var t := s.tasks[id];
      Current(c, s, id);
      var name := Domain.NormalizeDomain(t.request.target.host);
      if name.Failure? || !NameAllowed(c, t.snap, name.value) {
        FinishKeeps(c, s, id);
      } else {
        Domain.NormalizeFixpoints(t.request.target.host);
        var e := Looked(id, name.value, s.now);
        var pruned := s.(cache := Live(s.cache, s.now));
        LiveKeeps(c, s);
        NoteKeeps(c, pruned, e);
        LookupUsable(c, s, id, name.value, t.snap);
        PutKeeps(c, Note(pruned, e), id,
                 ConnLooked(t.snap, t.request, name.value, Lookup(s.cache, name.value, t.snap.revision, s.now)));
      }
    }
  }

  lemma UseDirectKeeps(c: Config, s: State, id: nat)
    requires Inv(c, s) && c.capacity > 0
    ensures Inv(c, UseDirectNext(c, s, id))
  {
    hide Domain.NormalizeDomain, Domain.IsNormalized, Inv;
    if id in s.tasks && s.tasks[id].ConnStarted? && s.tasks[id].request.target.Direct? {
      var t := s.tasks[id];
      Current(c, s, id);
      if t.request.expected.Some? && t.request.expected.value != t.request.target.ip {
        FinishKeeps(c, s, id);
      } else {
        PutKeeps(c, s, id, ConnChosen(t.snap, t.request, None, t.request.target.ip));
      }
    }
  }

  lemma UseCachedKeeps(c: Config, s: State, id: nat)
    requires Inv(c, s) && c.capacity > 0
    ensures Inv(c, UseCachedNext(c, s, id))
  {
    hide Domain.NormalizeDomain, Domain.IsNormalized, Inv, AllUsable, HostOk;
    if id in s.tasks && s.tasks[id].ConnLooked? {
      var t := s.tasks[id];
      Current(c, s, id);
      PutKeeps(c, s, id, ConnReady(t.snap, t.request, t.name, t.candidates));
    }
  }

  lemma AdmitConnectKeeps(c: Config, s: State, id: nat, time: nat)
    requires Inv(c, s) && c.capacity > 0
    ensures Inv(c, AdmitConnectNext(c, s, id, time))
  {
    hide Domain.NormalizeDomain, Domain.IsNormalized, Inv, AllUsable, Admitting, NameAllowed;
    if id in s.tasks && s.tasks[id].ConnLooked? {
      var t := s.tasks[id];
      Current(c, s, id);
      if NeedFresh(t.candidates, t.request.expected) && c.engine.allowDns {
        var e := Asked(id, t.name, t.snap, time);
        assert (s.history + [e])[|s.history|] == e;
        AllUsableGrows(s.history, e, id, t.name, t.snap, t.candidates);
        AdmittingKeeps(c, s, id, t.name, t.snap, time, ConnAsking(t.snap, t.request, t.name, t.candidates));
      }
    }
  }

  lemma AnswerConnectKeeps(c: Config, s: State, id: nat, chain: Chain)
    requires Inv(c, s) && c.capacity > 0
    ensures Inv(c, AnswerConnectNext(c, s, id, chain))
  {
    hide Domain.NormalizeDomain, Domain.IsNormalized, Inv, AllUsable;
    if id in s.tasks && s.tasks[id].ConnAsking? {
      var t := s.tasks[id];
      Current(c, s, id);
      RootedName(t.name);
      var e := Answered(id, t.name + ".", t.name, chain);
      PaidForGrows(s.history, e, id, t.name);
      NoteKeeps(c, s, e);
      AllUsableGrows(s.history, e, id, t.name, t.snap, t.candidates);
      assert AnswerFor(s.history + [e], id, t.name, |s.history|);
      PutKeeps(c, Note(s, e), id, ConnAnswered(t.snap, t.request, t.name, t.candidates, |s.history|));
    }
  }

  /** The name a fresh resolution asks for, with its root dot, is that name. */
  lemma RootedName(name: string)
    requires Domain.IsNormalized(name)
    ensures Domain.NormalizeDomain(name + ".") == Success(name)
  {
    Domain.NormalizedCharacters(name);
    Domain.SpellingIrrelevant(name, name, "", "", true);
    assert "" + name + "." + "" == name + ".";
  }

  lemma FailConnectKeeps(c: Config, s: State, id: nat)
    requires Inv(c, s) && c.capacity > 0
    ensures Inv(c, FailConnectNext(c, s, id))
  {
    hide Domain.NormalizeDomain, Domain.IsNormalized, Inv, AllUsable, HostOk;
    if id in s.tasks && s.tasks[id].ConnAsking? {
      var t := s.tasks[id];
      Current(c, s, id);
      FinishKeeps(c, s, id);
      PutKeeps(c, s, id, ConnReady(t.snap, t.request, t.name, t.candidates));
    }
  }

  lemma CheckConnectKeeps(c: Config, s: State, id: nat)
    requires Inv(c, s) && c.capacity > 0
    ensures Inv(c, CheckConnectNext(c, s, id))
  {
    hide Domain.NormalizeDomain, Domain.IsNormalized, Inv, AllUsable, HostOk, AnswerFor, HopsAllowed,
      ConnectValidate, IsCurrent;
    if id in s.tasks && s.tasks[id].ConnAnswered? {
      var t := s.tasks[id];
      Current(c, s, id);
      if t.answer < |s.history| && s.history[t.answer].Answered? {
        var chain := s.history[t.answer].chain;
        if !HopsAllowed(c.engine, t.snap, chain) || !IsCurrent(s.revisions.meta, s.now, t.snap) {
          FinishKeeps(c, s, id);
        } else {
          var records := ConnectValidate(c.engine, c.limits, chain);
          NothingUsable(s.history, id, t.name, t.snap);
          assert Ips(records[..0]) == [];
          PutKeeps(c, s, id, ConnPinning(t.snap, t.request, t.name, t.candidates, t.answer, records, 0));
        }
      }
    }
  }

  lemma NothingUsable(h: seq<Event>, id: nat, name: string, snap: Snapshot)
    ensures AllUsable(h, id, name, snap, [])
  {
  }

  lemma OneMoreUsable(h: seq<Event>, id: nat, name: string, snap: Snapshot, ips: seq<IpAddr>, ip: IpAddr)
    requires AllUsable(h, id, name, snap, ips) && MayUse(h, id, name, ip, snap)
    ensures AllUsable(h, id, name, snap, ips + [ip])
  {
    hide MayUse;
  }

  lemma PinConnectKeeps(c: Config, s: State, id: nat, time: nat)
    requires Inv(c, s) && c.capacity > 0
    ensures Inv(c, PinConnectNext(c, s, id, time))
  {
    hide Domain.NormalizeDomain, Domain.IsNormalized, Inv, ConnectValidate, HopsAllowed, Pinnable, Authorize,
      MayUse, OnRecord, AllUsable, HostOk;
    if id in s.tasks && s.tasks[id].ConnPinning? && time <= s.now && s.tasks[id].done < |s.tasks[id].records| {
      var t := s.tasks[id];
      Current(c, s, id);
      var record := t.records[t.done];
      var ttl := CapTtl(c.engine, record.ttlSecs);
      ConnectPinsArePinnable(c.engine, t.snap, c.limits, s.history[t.answer].chain, t.done);
      PinningKeeps(c, s, id, t.name, record.ip, t.snap, t.answer, ttl, time);
      var e := Pinned(id, t.name, record.ip, t.snap, t.answer, ttl, time);
      var r := Pinning(c, s, id, t.name, record.ip, t.snap, t.answer, ttl, time);
      assert r.history == s.history + [e];
      AllUsableGrows(s.history, e, id, t.name, t.snap, t.candidates);
      AllUsableGrows(s.history, e, id, t.name, t.snap, Ips(t.records[..t.done]));
      AnswerGrows(s.history, e, id, t.name, t.answer);
      OneMoreUsable(r.history, id, t.name, t.snap, Ips(t.records[..t.done]), record.ip);
      assert t.records[..t.done + 1] == t.records[..t.done] + [record];
      IpsConcat(t.records[..t.done], record);
      PutKeeps(c, r, id, t.(done := t.done + 1));
    }
  }

  lemma FinishPinsKeeps(c: Config, s: State, id: nat)
    requires Inv(c, s) && c.capacity > 0
    ensures Inv(c, FinishPinsNext(c, s, id))
  {
    hide Domain.NormalizeDomain, Domain.IsNormalized, Inv, ConnectValidate, HopsAllowed, AllUsable, HostOk;
    hide Sorted, StrictlySorted, Elements;
    if id in s.tasks && s.tasks[id].ConnPinning? && s.tasks[id].done >= |s.tasks[id].records| {
      var t := s.tasks[id];
      Current(c, s, id);
      assert t.records[..t.done] == t.records;
      MergedUsable(s.history, id, t.name, t.snap, t.candidates, Ips(t.records));
      PutKeeps(c, s, id, ConnReady(t.snap, t.request, t.name,
                                   Sorted(Elements(t.candidates) + Elements(Ips(t.records)))));
    }
  }

  lemma MergedUsable(h: seq<Event>, id: nat, name: string, snap: Snapshot, a: seq<IpAddr>, b: seq<IpAddr>)
    requires AllUsable(h, id, name, snap, a) && AllUsable(h, id, name, snap, b)
    ensures AllUsable(h, id, name, snap, Sorted(Elements(a) + Elements(b)))
  {
    hide MayUse, Sorted, StrictlySorted;
    var m := Sorted(Elements(a) + Elements(b));
    forall i | 0 <= i < |m| ensures MayUse(h, id, name, m[i], snap) {
      assert m[i] in Elements(m);
    }
  }

  lemma ChooseKeeps(c: Config, s: State, id: nat)
    requires Inv(c, s)
    ensures Inv(c, ChooseNext(c, s, id))
  {
    hide Domain.NormalizeDomain, Domain.IsNormalized, Inv, MayUse, HostOk;
    if id in s.tasks && s.tasks[id].ConnReady? {
      var t := s.tasks[id];
      Current(c, s, id);
      FinishKeeps(c, s, id);
      if t.candidates != [] && (t.request.expected.None? || t.request.expected.value in t.candidates) {
        var ip := if t.request.expected.Some? then t.request.expected.value else t.candidates[0];
        assert ip in t.candidates;
        PutKeeps(c, s, id, ConnChosen(t.snap, t.request, Some(t.name), ip));
      }
    }
  }

  lemma DecideKeeps(c: Config, s: State, id: nat)
    requires Inv(c, s)
    ensures Inv(c, DecideNext(c, s, id))
  {
    hide Domain.NormalizeDomain, Domain.IsNormalized, Inv, Decided, ChosenOk, IsCurrent;
    if id in s.tasks && s.tasks[id].ConnChosen? {
      var t := s.tasks[id];
      Current(c, s, id);
      FinishKeeps(c, s, id);
      if Decided(c, t.snap, t.via, t.ip, t.request.port) {
        PutKeeps(c, s, id, ConnDialing(t.snap, t.request, t.via, t.ip));
      }
    }
  }

  lemma ConnectedKeeps(c: Config, s: State, id: nat, e: Event)
    requires Inv(c, s) && id in s.tasks && s.tasks[id].ConnDialing?
    requires var t := s.tasks[id];
             && IsCurrent(s.revisions.meta, s.now, t.snap)
             && e == Connected(id, t.request, t.via, t.ip, t.snap, View(s.revisions.meta, s.now))
    ensures ConnectionSafe(c, s.history + [e], |s.history|) && Inv(c, Note(s, e))
  {
    var t := s.tasks[id];
    Current(c, s, id);
    CurrentIsInForce(s.revisions, s.now, t.snap);
    hide Domain.NormalizeDomain, Domain.IsNormalized, Inv, MayUse, Decided, IsCurrent;
    if t.via.Some? {
      MayUseGrows(s.history, e, id, t.via.value, t.ip, t.snap);
    }
    assert ConnectionSafe(c, s.history + [e], |s.history|);
    NoteKeeps(c, s, e);
  }

  lemma DialedKeeps(c: Config, s: State, id: nat)
    requires Inv(c, s)
    ensures Inv(c, DialedNext(c, s, id))
  {
    hide Inv, IsCurrent, ConnectionSafe;
    if id in s.tasks && s.tasks[id].ConnDialing? {
      var t := s.tasks[id];
      FinishKeeps(c, s, id);
      if IsCurrent(s.revisions.meta, s.now, t.snap) {
        var e := Connected(id, t.request, t.via, t.ip, t.snap, View(s.revisions.meta, s.now));
        ConnectedKeeps(c, s, id, e);
        FinishKeeps(c, Note(s, e), id);
      }
    }
  }

  lemma StartConnectKeeps(c: Config, s: State, id: nat, request: Request)
    requires Inv(c, s)
    ensures Inv(c, StartConnectNext(c, s, id, request))
  {
    hide Domain.NormalizeDomain, Domain.IsNormalized, Inv;
    SnapshotNow(c, s);
    PutKeeps(c, s, id, ConnStarted(View(s.revisions.meta, s.now), request));
  }

  lemma StopKeeps(c: Config, s: State, id: nat)
    requires Inv(c, s)
    ensures Inv(c, StopNext(c, s, id))
  {
    hide Domain.NormalizeDomain, Domain.IsNormalized, Inv;
    if id in s.tasks {
      FinishKeeps(c, s, id);
    }
  }

  lemma StepKeeps(c: Config, s: State, step: Step)
    requires Inv(c, s) && c.capacity > 0
    ensures Inv(c, Apply(c, s, step))
  {
    hide Inv, Refresh;
    hide StartDnsNext, AdmitDnsNext, AnswerDnsNext, CheckDnsNext, PinDnsNext, ReplyDnsNext, StartConnectNext,
      LookUpNext, UseDirectNext, UseCachedNext, AdmitConnectNext, AnswerConnectNext, FailConnectNext,
      CheckConnectNext, PinConnectNext, FinishPinsNext, ChooseNext, DecideNext, DialedNext, StopNext;
    match step {
      case Tick(delta) => TickKeeps(c, s, delta);
      case Scope(refresh) => ScopeKeeps(c, s, refresh);
      case StartDns(id, raw, qtype) => StartDnsKeeps(c, s, id, raw, qtype);
      case AdmitDns(id, time) => AdmitDnsKeeps(c, s, id, time);
      case AnswerDns(id, chain) => AnswerDnsKeeps(c, s, id, chain);
      case CheckDns(id) => CheckDnsKeeps(c, s, id);
      case PinDns(id, time) => PinDnsKeeps(c, s, id, time);
      case ReplyDns(id) => ReplyDnsKeeps(c, s, id);
      case StartConnect(id, request) => StartConnectKeeps(c, s, id, request);
      case LookUp(id) => LookUpKeeps(c, s, id);
      case UseDirect(id) => UseDirectKeeps(c, s, id);
      case UseCached(id) => UseCachedKeeps(c, s, id);
      case AdmitConnect(id, time) => AdmitConnectKeeps(c, s, id, time);
      case AnswerConnect(id, chain) => AnswerConnectKeeps(c, s, id, chain);
      case FailConnect(id) => FailConnectKeeps(c, s, id);
      case CheckConnect(id) => CheckConnectKeeps(c, s, id);
      case PinConnect(id, time) => PinConnectKeeps(c, s, id, time);
      case FinishPins(id) => FinishPinsKeeps(c, s, id);
      case Choose(id) => ChooseKeeps(c, s, id);
      case Decide(id) => DecideKeeps(c, s, id);
      case Dialed(id) => DialedKeeps(c, s, id);
      case Stop(id) => StopKeeps(c, s, id);
    }
  }

  lemma InitialOk(c: Config)
    ensures Inv(c, INITIAL)
  {
  }

  lemma {:induction false} EveryRunKeeps(c: Config, steps: seq<Step>)
    requires c.capacity > 0
    ensures Inv(c, Run(c, steps))
  {
    hide Inv, Apply;
    assert Inv(c, INITIAL) by {
      InitialOk(c);
    }
    if steps != [] {
      EveryRunKeeps(c, steps[..|steps| - 1]);
      StepKeeps(c, Run(c, steps[..|steps| - 1]), steps[|steps| - 1]);
    }
  }

  // ---- What follows --------------------------------------------------------

  /** Pin safety: in every run, each connection handed out is one the policy in
      force at that moment allows. A hostname connection goes to an address that
      an earlier pin names for exactly the normalized host; the pin was made by
      this very request or was live when it looked, and it goes back to an
      upstream answer for that name whose hops, record type and address class
      the same policy allows. */
  lemma PinSafety(c: Config, steps: seq<Step>, i: nat)
    requires c.capacity > 0
    requires i < |Run(c, steps).history| && Run(c, steps).history[i].Connected?
    ensures var h := Run(c, steps).history;
            && ConnectionSafe(c, h, i)
            && AddressPermitted(c.engine, h[i].ip)
            && (h[i].via.Some? ==>
                  exists j: nat | j < i ::
                    UsablePin(h[..i], j, h[i].owner, h[i].via.value, h[i].ip, h[i].inForce) && PinJustified(c, h, j))
  {
    hide Apply, Domain.NormalizeDomain, Run, Pinnable, Decided, Inv, AddressPermitted;
    var h := Run(c, steps).history;
    EveryRunKeeps(c, steps);
    HistoryHolds(c, Run(c, steps));
    assert EventOk(c, h, i);
    DecidedPermits(c, h[i].inForce, h[i].via, h[i].ip, h[i].request.port);
    if h[i].via.Some? {
      var n := Moment(c, steps, i);
      EveryRunKeeps(c, steps[..n]);
      HistoryHolds(c, Run(c, steps[..n]));
      var early := h[..i + 1];
      assert early[i] == h[i] && EventOk(c, early, i);
      var j: nat :| j < |early| && UsablePin(early, j, h[i].owner, h[i].via.value, h[i].ip, h[i].snap);
      assert early[j] == h[j] && EventOk(c, h, j);
      UsableBefore(h, i, j, h[i].owner, h[i].via.value, h[i].ip, h[i].snap);
    }
  }

  lemma HistoryHolds(c: Config, s: State)
    requires Inv(c, s)
    ensures HistoryOk(c, s.history)
  {
  }

  lemma DecidedPermits(c: Config, snap: Snapshot, via: Option<string>, ip: IpAddr, port: nat)
    requires Decided(c, snap, via, ip, port)
    ensures AddressPermitted(c.engine, ip)
  {
    hide AddressPermitted;
  }

  /** Neither the pin nor the lookup is the connection itself. */
  lemma UsableBefore(h: seq<Event>, i: nat, j: nat, owner: nat, name: string, ip: IpAddr, snap: Snapshot)
    requires i < |h| && h[i].Connected? && j <= i && UsablePin(h[..i + 1], j, owner, name, ip, snap)
    ensures j < i && UsablePin(h[..i], j, owner, name, ip, snap)
  {
    var early, before := h[..i + 1], h[..i];
    assert early[j] == h[j] && early[i] == h[i];
    assert before[j] == h[j];
    if early[j].owner != owner {
      var k: nat :| k < |early| && LiveAtLookup(early, j, k, owner, name);
      assert k < i && before[k] == early[k];
      assert LiveAtLookup(before, j, k, owner, name);
    }
  }

  /** A client learns from a DNS reply only addresses that were pinned for the
      name it asked, by the same query, before it was answered, and each pin is
      justified. */
  lemma RepliesArePinned(c: Config, steps: seq<Step>, i: nat, k: nat)
    requires c.capacity > 0
    requires i < |Run(c, steps).history| && Run(c, steps).history[i].Replied?
    requires k < |Run(c, steps).history[i].ips|
    ensures var h := Run(c, steps).history;
            exists j: nat | j < i ::
              PinnedBy(h, j, h[i].owner, h[i].name, h[i].ips[k]) && PinJustified(c, h, j)
  {
    hide Apply, Domain.NormalizeDomain, Run, Pinnable, Inv;
    var h := Run(c, steps).history;
    var n := Moment(c, steps, i);
    EveryRunKeeps(c, steps);
    HistoryHolds(c, Run(c, steps));
    EveryRunKeeps(c, steps[..n]);
    HistoryHolds(c, Run(c, steps[..n]));
    var early := h[..i + 1];
    assert early[i] == h[i] && EventOk(c, early, i);
    assert OnRecord(early, h[i].owner, h[i].name, h[i].ips[k]);
    var j: nat :| j < |early| && PinnedBy(early, j, h[i].owner, h[i].name, h[i].ips[k]);
    assert early[j] == h[j] && EventOk(c, h, j);
  }

  /** The cache never exceeds its capacity. */
  lemma CacheBounded(c: Config, steps: seq<Step>)
    requires c.capacity > 0
    ensures |Run(c, steps).cache| <= c.capacity
  {
    hide Apply, Domain.NormalizeDomain;
    EveryRunKeeps(c, steps);
  }

  /** The names asked upstream at a time in `[from, from + window)`. */
  function AskedWithin(asked: seq<Call>, from: nat, window: nat): (r: seq<string>) {
    if asked == [] then []
    else
      var last := asked[|asked| - 1];
      AskedWithin(asked[..|asked| - 1], from, window) +
      (if from <= last.now < from + window then [last.name] else [])
  }

  lemma AskedWithinGrows(asked: seq<Call>, x: Call, from: nat, window: nat)
    ensures AskedWithin(asked + [x], from, window) ==
            AskedWithin(asked, from, window) + (if from <= x.now < from + window then [x.name] else [])
  {
    assert (asked + [x])[..|asked|] == asked;
  }

  lemma {:induction false} HitsAreAsked(l: Limits, calls: seq<Call>, from: nat)
    ensures Hits(l, calls, from) == AskedWithin(AdmittedCalls(l, calls), from, l.window)
  {
    if calls != [] {
      var init, last := calls[..|calls| - 1], calls[|calls| - 1];
      HitsAreAsked(l, init, from);
      AskedWithinGrows(AdmittedCalls(l, init), last, from, l.window);
      if !LastVerdict(l, calls).Admitted? {
        assert AdmittedCalls(l, calls) == AdmittedCalls(l, init);
      }
    }
  }

  // ---- One admission pays for one answer ------------------------------------

  ghost function AnswerOwners(h: seq<Event>): (r: set<nat>) {
    if h == [] then {}
    else AnswerOwners(h[..|h| - 1]) + (if h[|h| - 1].Answered? then {h[|h| - 1].owner} else {})
  }

  ghost function AskOwners(h: seq<Event>): (r: set<nat>) {
    if h == [] then {}
    else AskOwners(h[..|h| - 1]) + (if h[|h| - 1].Asked? then {h[|h| - 1].owner} else {})
  }

  function Answers(h: seq<Event>): (n: nat) {
    if h == [] then 0 else Answers(h[..|h| - 1]) + (if h[|h| - 1].Answered? then 1 else 0)
  }

  lemma {:induction false} AnswerOwnersMeaning(h: seq<Event>, id: nat)
    ensures id in AnswerOwners(h) <==> exists i: nat | i < |h| :: h[i].Answered? && h[i].owner == id
  {
    if h != [] {
      var front := h[..|h| - 1];
      AnswerOwnersMeaning(front, id);
      assert forall i: nat | i < |front| :: front[i] == h[i];
    }
  }

  lemma {:induction false} AskOwnersMeaning(h: seq<Event>, id: nat)
    ensures id in AskOwners(h) <==> exists i: nat | i < |h| :: h[i].Asked? && h[i].owner == id
  {
    if h != [] {
      var front := h[..|h| - 1];
      AskOwnersMeaning(front, id);
      assert forall i: nat | i < |front| :: front[i] == h[i];
    }
  }

  lemma {:induction false} AnswersCounted(h: seq<Event>)
    requires OwnAnswers(h)
    ensures |AnswerOwners(h)| == Answers(h)
  {
    if h != [] {
      var front, last := h[..|h| - 1], h[|h| - 1];
      assert forall i: nat | i < |front| :: front[i] == h[i];
      AnswersCounted(front);
      if last.Answered? {
        AnswerOwnersMeaning(front, last.owner);
      }
    }
  }

  lemma {:induction false} AsksCounted(h: seq<Event>)
    ensures |AskOwners(h)| <= |AskedCalls(h)|
  {
    if h != [] {
      AsksCounted(h[..|h| - 1]);
      UnionSize(AskOwners(h[..|h| - 1]), if h[|h| - 1].Asked? then {h[|h| - 1].owner} else {});
    }
  }

  /** No request is answered twice, so there are at most as many answers as
      admitted queries. */
  lemma OneAnswerEach(c: Config, steps: seq<Step>)
    requires c.capacity > 0
    ensures var h := Run(c, steps).history; OwnAnswers(h) && Answers(h) <= |AskedCalls(h)|
  {
    hide Apply, Run, Inv, AnswerOwners, AskOwners, Answers, AskedCalls;
    var h := Run(c, steps).history;
    EveryRunAnswersOnce(c, steps);
    EveryRunKeeps(c, steps);
    HistoryHolds(c, Run(c, steps));
    forall id | id in AnswerOwners(h) ensures id in AskOwners(h) {
      AnswerOwnersMeaning(h, id);
      AskOwnersMeaning(h, id);
      var i: nat :| i < |h| && h[i].Answered? && h[i].owner == id;
      assert EventOk(c, h, i);
    }
    AnswersCounted(h);
    AsksCounted(h);
    SubsetSize(AnswerOwners(h), AskOwners(h));
  }

  /** One budget for both paths: in every run whose guard calls are in time
      order, the queries that DNS and CONNECT together sent upstream stay, over
      any interval as long as the window, within twice each budget; every one of
      them was for a name within limits and allowed by domain policy; and every
      answer has an admitted query of its own. */
  lemma SharedBudget(c: Config, steps: seq<Step>, from: nat)
    requires c.capacity > 0 && c.limits.window > 0 && Ordered(Run(c, steps).calls)
    ensures var h := Run(c, steps).history;
            var names := AskedWithin(AskedCalls(h), from, c.limits.window);
            && |names| <= 2 * c.limits.maxQueries
            && OctetSum(names) <= 2 * c.limits.maxQueryOctets
            && |Names(names)| <= 2 * c.limits.maxUniqueNames
            && |Labels(names)| <= 2 * c.limits.maxDynamicLabels
            && (forall i: nat | i < |h| && h[i].Asked? :: NameAllowed(c, h[i].snap, h[i].name))
            && (forall i: nat | i < |h| && h[i].Answered? :: PaidFor(h, h[i].owner, h[i].name))
            && OwnAnswers(h) && Answers(h) <= |AskedCalls(h)|
  {
    hide Apply, Domain.NormalizeDomain, OwnAnswers;
    OneAnswerEach(c, steps);
    EveryRunKeeps(c, steps);
    var s := Run(c, steps);
    HitsAreAsked(c.limits, s.calls, from);
    SlidingBound(c.limits, s.calls, from);
    forall i: nat | i < |s.history| && s.history[i].Asked?
      ensures NameAllowed(c, s.history[i].snap, s.history[i].name)
    {
      assert EventOk(c, s.history, i);
    }
    forall i: nat | i < |s.history| && s.history[i].Answered?
      ensures PaidFor(s.history, s.history[i].owner, s.history[i].name)
    {
      assert EventOk(c, s.history, i);
    }
  }
}
