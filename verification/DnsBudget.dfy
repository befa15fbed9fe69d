/** The DNS query-exfiltration guard: per-query structural limits and four
    budgets over fixed windows, shared by both brokers. */
module DnsBudget {
  import opened Prelude
  import Domain
  import Splitting

  datatype RecordType = A | Aaaa

  datatype DnsLimit =
    | QnameOctets | LabelCount | LabelOctets
    | QueryCount | QueryOctets | UniqueNames | DynamicLabels

  /** The compiled guard without its window state. */
  datatype Limits = Limits(
    maxQnameOctets: nat,
    maxLabels: nat,
    maxLabelOctets: nat,
    allowedRecordTypes: set<RecordType>,
    maxResponseRecords: nat,
    window: nat,
    maxQueries: nat,
    maxQueryOctets: nat,
    maxUniqueNames: nat,
    maxDynamicLabels: nat)

  datatype Window = Window(
    start: Option<nat>,
    queries: nat,
    octets: nat,
    names: set<string>,
    labels: set<string>)

  /** `Overflow` is the panic of `+= 1` on a saturated machine counter. */
  datatype Verdict = Admitted | Rejected(limit: DnsLimit) | Overflow

  const EMPTY_WINDOW := Window(None, 0, 0, {}, {})

  predicate Expired(l: Limits, w: Window, now: nat) {
    w.start.None? || l.window == 0 || now - w.start.value >= l.window
  }

  function Rolled(l: Limits, w: Window, now: nat): (r: Window) {
    if Expired(l, w, now) then Window(Some(now), 0, 0, {}, {}) else w
  }

  function SaturatingAdd(a: nat, b: nat, max: nat): (r: nat) {
    if a + b > max then max else a + b
  }

  /** The checks of `admit` on an unexpired window, in the order of the source. */
  function Judge(l: Limits, w: Window, name: string): (v: Verdict) {
    if SaturatingAdd(w.queries, 1, U32_MAX) > l.maxQueries then Rejected(QueryCount)
    else if SaturatingAdd(w.octets, Domain.Octets(name), U64_MAX) > l.maxQueryOctets then Rejected(QueryOctets)
    else if name !in w.names && |w.names| >= l.maxUniqueNames then Rejected(UniqueNames)
    else if Domain.LeftmostLabel(name) !in w.labels && |w.labels| >= l.maxDynamicLabels then
      Rejected(DynamicLabels)
    else if w.queries + 1 > U32_MAX || w.octets + Domain.Octets(name) > U64_MAX then Overflow
    else Admitted
  }

  function Charge(w: Window, name: string): (r: Window) {
    w.(queries := w.queries + 1,
       octets := w.octets + Domain.Octets(name),
       names := w.names + {name},
       labels := w.labels + {Domain.LeftmostLabel(name)})
  }

  function Admit(l: Limits, w: Window, name: string, now: nat): (r: (Window, Verdict)) {
    var rolled := Rolled(l, w, now);
    var verdict := Judge(l, rolled, name);
    (if verdict.Admitted? then Charge(rolled, name) else rolled, verdict)
  }

  // ---- What a window remembers ---------------------------------------------

  function OctetSum(log: seq<string>): (n: nat) {
    if log == [] then 0 else OctetSum(log[..|log| - 1]) + Domain.Octets(log[|log| - 1])
  }

  ghost function Names(log: seq<string>): (s: set<string>) {
    set x | x in log
  }

  ghost function Labels(log: seq<string>): (s: set<string>) {
    set x | x in log :: Domain.LeftmostLabel(x)
  }

  /** The window that has admitted exactly `log` since it started. */
  ghost function Summary(start: Option<nat>, log: seq<string>): (w: Window) {
    Window(start, |log|, OctetSum(log), Names(log), Labels(log))
  }

  /** A log within all four budgets. */
  ghost predicate Within(l: Limits, log: seq<string>) {
    && |log| <= l.maxQueries
    && OctetSum(log) <= l.maxQueryOctets
    && |Names(log)| <= l.maxUniqueNames
    && |Labels(log)| <= l.maxDynamicLabels
  }

  lemma ChargeSummary(start: Option<nat>, log: seq<string>, name: string)
    ensures Charge(Summary(start, log), name) == Summary(start, log + [name])
  {
    assert (log + [name])[..|log|] == log;
    assert Names(log + [name]) == Names(log) + {name};
    assert Labels(log + [name]) == Labels(log) + {Domain.LeftmostLabel(name)} by {
      forall y | y in Labels(log) + {Domain.LeftmostLabel(name)} ensures y in Labels(log + [name]) {
        if y in Labels(log) {
          var x :| x in log && y == Domain.LeftmostLabel(x);
          assert x in log + [name];
        } else {
          assert name in log + [name];
        }
      }
    }
  }

  /** What one more query adds. */
  lemma OneMoreQuery(log: seq<string>, name: string)
    ensures OctetSum(log + [name]) == OctetSum(log) + Domain.Octets(name)
    ensures |Names(log + [name])| == if name in Names(log) then |Names(log)| else |Names(log)| + 1
    ensures var first := Domain.LeftmostLabel(name);
            |Labels(log + [name])| == if first in Labels(log) then |Labels(log)| else |Labels(log)| + 1
  {
    hide Names, Labels, OctetSum, Domain.Octets, Domain.LeftmostLabel;
    ChargeSummary(None, log, name);
    AddSize(Names(log), name);
    AddSize(Labels(log), Domain.LeftmostLabel(name));
  }

  lemma AddSize(s: set<string>, x: string)
    ensures |s + {x}| == if x in s then |s| else |s| + 1
  {
    assert x in s ==> s + {x} == s;
  }

  /** A query is admitted exactly when the log with it is within every budget and
      the machine counters hold. */
  lemma AdmittedExactly(l: Limits, start: Option<nat>, log: seq<string>, name: string)
    requires Within(l, log)
    ensures Judge(l, Summary(start, log), name).Admitted? <==>
            Within(l, log + [name]) && |log + [name]| <= U32_MAX && OctetSum(log + [name]) <= U64_MAX
  {
    OneMoreQuery(log, name);
    hide Names, Labels, OctetSum, Domain.Octets, Domain.LeftmostLabel;
  }

  lemma {:induction false} LabelsAtMostNames(log: seq<string>)
    ensures |Labels(log)| <= |Names(log)| <= |log|
  {
    if log == [] {
      assert Names(log) == {} && Labels(log) == {};
    } else {
      var init, last := log[..|log| - 1], log[|log| - 1];
      LabelsAtMostNames(init);
      assert log == init + [last];
      ChargeSummary(None, init, last);
      if last in Names(init) {
        assert Domain.LeftmostLabel(last) in Labels(init);
        assert Labels(log) == Labels(init) && Names(log) == Names(init);
      }
    }
  }

  // ---- Runs ----------------------------------------------------------------

  datatype Call = Call(name: string, now: nat)

  /** The guard after a sequence of `admit` calls. */
  function After(l: Limits, calls: seq<Call>): (w: Window) {
    if calls == [] then EMPTY_WINDOW
    else
      var last := calls[|calls| - 1];
      Admit(l, After(l, calls[..|calls| - 1]), last.name, last.now).0
  }

  function LastVerdict(l: Limits, calls: seq<Call>): (v: Verdict)
    requires calls != []
  {
    var last := calls[|calls| - 1];
    Admit(l, After(l, calls[..|calls| - 1]), last.name, last.now).1
  }

  /** The names admitted since the window last rolled. */
  function Log(l: Limits, calls: seq<Call>): (log: seq<string>) {
    if calls == [] then []
    else
      var init, last := calls[..|calls| - 1], calls[|calls| - 1];
      (if Expired(l, After(l, init), last.now) then [] else Log(l, init)) +
      (if LastVerdict(l, calls).Admitted? then [last.name] else [])
  }

  /** The guard is always the fold over the queries admitted since the window
      rolled, and that fold is within every budget. */
  lemma {:induction false} GuardIsFold(l: Limits, calls: seq<Call>)
    ensures After(l, calls) == Summary(After(l, calls).start, Log(l, calls))
    ensures Within(l, Log(l, calls))
    ensures |After(l, calls).labels| <= |After(l, calls).names| <= After(l, calls).queries
  {
    LabelsAtMostNames(Log(l, calls));
    EmptyWithin(l);
    if calls != [] {
      var init, last := calls[..|calls| - 1], calls[|calls| - 1];
      GuardIsFold(l, init);
      var w := After(l, init);
      var base := if Expired(l, w, last.now) then [] else Log(l, init);
      var rolled := Rolled(l, w, last.now);
      assert rolled == Summary(rolled.start, base);
      if LastVerdict(l, calls).Admitted? {
        ChargeSummary(rolled.start, base, last.name);
        AdmittedExactly(l, rolled.start, base, last.name);
      } else {
        assert Log(l, calls) == base;
      }
    }
  }

  lemma EmptyWithin(l: Limits)
    ensures Within(l, []) && Summary(None, []) == EMPTY_WINDOW
    ensures forall now :: Summary(Some(now), []) == Window(Some(now), 0, 0, {}, {})
  {
    assert Names([]) == {} && Labels([]) == {};
  }

  /** In any call sequence the last query is admitted exactly when, with those
      admitted since the window rolled, it stays within every budget. */
  lemma LastAdmittedExactly(l: Limits, calls: seq<Call>)
    requires calls != []
    ensures var init, last := calls[..|calls| - 1], calls[|calls| - 1];
            var log := (if Expired(l, After(l, init), last.now) then [] else Log(l, init)) + [last.name];
            LastVerdict(l, calls).Admitted? <==> Within(l, log) && |log| <= U32_MAX && OctetSum(log) <= U64_MAX
  {
    var init, last := calls[..|calls| - 1], calls[|calls| - 1];
    GuardIsFold(l, init);
    EmptyWithin(l);
    var base := if Expired(l, After(l, init), last.now) then [] else Log(l, init);
    var rolled := Rolled(l, After(l, init), last.now);
    assert rolled == Summary(rolled.start, base);
    AdmittedExactly(l, rolled.start, base, last.name);
    hide Judge, Summary, Within, OctetSum;
  }

  /** A refused query costs nothing: it leaves the window as it was, rolled if
      it had expired. */
  lemma RefusalLeaves(l: Limits, calls: seq<Call>, refused: Call)
    requires !LastVerdict(l, calls + [refused]).Admitted?
    ensures After(l, calls + [refused]) == Rolled(l, After(l, calls), refused.now)
  {
    assert (calls + [refused])[..|calls|] == calls;
    hide Judge;
  }

  /** So no later query can tell whether a query was refused within a window or
      never asked: every verdict after it, and the guard at the end, are the same. */
  lemma {:induction false} RejectionIsFree(l: Limits, calls: seq<Call>, refused: Call, later: seq<Call>)
    requires !LastVerdict(l, calls + [refused]).Admitted? && !Expired(l, After(l, calls), refused.now)
    ensures After(l, calls + [refused] + later) == After(l, calls + later)
    ensures later != [] ==> LastVerdict(l, calls + [refused] + later) == LastVerdict(l, calls + later)
  {
    hide Admit;
    if later == [] {
      RefusalLeaves(l, calls, refused);
      assert calls + [refused] + later == calls + [refused] && calls + later == calls;
    } else {
      var front, last := later[..|later| - 1], later[|later| - 1];
      RejectionIsFree(l, calls, refused, front);
      var with, without := calls + [refused] + later, calls + later;
      assert with[..|with| - 1] == calls + [refused] + front && without[..|without| - 1] == calls + front;
      assert with[|with| - 1] == without[|without| - 1] == last;
    }
  }

  /** What `validate_dns_controls` lets through, with the field widths. */
  predicate Validated(l: Limits) {
    && 1 <= l.maxQnameOctets <= 253 && l.maxLabels >= 1 && 1 <= l.maxLabelOctets <= 63
    && l.maxResponseRecords >= 1 && l.allowedRecordTypes != {}
    && l.window > 0 && l.maxQueries > 0 && l.maxQueryOctets > 0
    && l.maxUniqueNames > 0 && l.maxDynamicLabels > 0
    && l.maxQueries <= U32_MAX && l.maxQueryOctets <= U64_MAX
  }

  // ---- The sliding bound ---------------------------------------------------

  ghost predicate Ordered(calls: seq<Call>) {
    forall i, j | 0 <= i < j < |calls| :: calls[i].now <= calls[j].now
  }

  /** The names admitted at a time in the half-open interval `[from, from + window)`. */
  function Hits(l: Limits, calls: seq<Call>, from: nat): (hits: seq<string>) {
    if calls == [] then []
    else
      var last := calls[|calls| - 1];
      Hits(l, calls[..|calls| - 1], from) +
      (if LastVerdict(l, calls).Admitted? && from <= last.now < from + l.window then [last.name] else [])
  }

  ghost predicate IsSuffix(s: seq<string>, t: seq<string>) {
    |s| <= |t| && t[|t| - |s|..] == s
  }

  /** What the bound needs to know of a run: its hits, the log and start of the
      current window, and the time of the last call. */
  datatype Trail = Trail(hits: seq<string>, log: seq<string>, start: Option<nat>, last: Option<nat>)

  ghost function TrailOf(l: Limits, calls: seq<Call>, from: nat): (t: Trail) {
    Trail(Hits(l, calls, from), Log(l, calls), After(l, calls).start,
          if calls == [] then None else Some(calls[|calls| - 1].now))
  }

  /** The hits are those of one earlier window followed by the newest names of
      the current one, until the interval is over; then they no longer change. */
  ghost predicate TwoWindows(l: Limits, t: Trail, from: nat, older: seq<string>, newer: seq<string>) {
    && t.hits == older + newer && Within(l, older) && Within(l, newer)
    && (t.start.None? <==> t.last.None?)
    && (t.last.None? ==> older + newer == [] && t.log == [])
    && (t.last.Some? && t.last.value < from + l.window ==>
          && IsSuffix(newer, t.log)
          && (older != [] ==> from <= t.start.value)
          && (older + newer != [] ==> from <= t.last.value))
  }

  /** One call at `now`, seen on the trail. */
  function NextTrail(l: Limits, t: Trail, from: nat, name: string, now: nat, admitted: bool): (r: Trail) {
    var expired := t.start.None? || now - t.start.value >= l.window;
    var added := if admitted then [name] else [];
    Trail(t.hits + (if from <= now < from + l.window then added else []),
          (if expired then [] else t.log) + added,
          if expired then Some(now) else t.start,
          Some(now))
  }

  lemma TrailStep(l: Limits, t: Trail, from: nat, name: string, now: nat, admitted: bool,
                  older: seq<string>, newer: seq<string>)
    returns (older': seq<string>, newer': seq<string>)
    requires l.window > 0 && TwoWindows(l, t, from, older, newer)
    requires t.last.Some? ==> t.last.value <= now
    requires Within(l, NextTrail(l, t, from, name, now, admitted).log)
    ensures TwoWindows(l, NextTrail(l, t, from, name, now, admitted), from, older', newer')
  {
    hide Within;
    var t' := NextTrail(l, t, from, name, now, admitted);
    var added := if admitted && from <= now then [name] else [];
    if now >= from + l.window {
      older', newer' := older, newer;
    } else {
      if t.start.None? || now - t.start.value >= l.window {
        assert older == [];
        older', newer' := newer, added;
      } else {
        older', newer' := older, newer + added;
        assert older + newer + added == older' + newer';
      }
      assert IsSuffix(newer', t'.log);
      SuffixWithin(l, newer', t'.log);
    }
  }

  lemma TrailFollows(l: Limits, calls: seq<Call>, from: nat)
    requires l.window > 0 && calls != []
    ensures var last := calls[|calls| - 1];
            TrailOf(l, calls, from) ==
            NextTrail(l, TrailOf(l, calls[..|calls| - 1], from), from, last.name, last.now,
                      LastVerdict(l, calls).Admitted?)
  {
  }

  lemma {:induction false} HitsFromTwoWindows(l: Limits, calls: seq<Call>, from: nat)
    returns (older: seq<string>, newer: seq<string>)
    requires l.window > 0 && Ordered(calls)
    ensures TwoWindows(l, TrailOf(l, calls, from), from, older, newer)
    decreases |calls|
  {
    EmptyWithin(l);
    if calls == [] {
      older, newer := [], [];
    } else {
      var init, last := calls[..|calls| - 1], calls[|calls| - 1];
      older, newer := HitsFromTwoWindows(l, init, from);
      TrailFollows(l, calls, from);
      GuardIsFold(l, calls);
      older, newer := TrailStep(l, TrailOf(l, init, from), from, last.name, last.now,
                                LastVerdict(l, calls).Admitted?, older, newer);
    }
  }

  lemma SuffixWithin(l: Limits, s: seq<string>, t: seq<string>)
    requires IsSuffix(s, t) && Within(l, t)
    ensures Within(l, s)
  {
    OctetSumSuffix(s, t);
    forall x | x in s ensures x in t {
      var i :| 0 <= i < |s| && s[i] == x;
      assert t[|t| - |s| + i] == x;
    }
    assert Names(s) <= Names(t) && Labels(s) <= Labels(t);
    SubsetSize(Names(s), Names(t));
    SubsetSize(Labels(s), Labels(t));
  }

  lemma {:induction false} OctetSumSuffix(s: seq<string>, t: seq<string>)
    requires IsSuffix(s, t)
    ensures OctetSum(s) <= OctetSum(t)
    decreases |s|
  {
    if s != [] {
      OctetSumSuffix(s[..|s| - 1], t[..|t| - 1]);
    }
  }

  lemma SubsetSize<T>(a: set<T>, b: set<T>)
    requires a <= b
    ensures |a| <= |b|
  {
    assert b == a + (b - a);
  }

  lemma {:induction false} OctetSumConcat(a: seq<string>, b: seq<string>)
    ensures OctetSum(a + b) == OctetSum(a) + OctetSum(b)
  {
    if b == [] {
      assert a + b == a;
    } else {
      OctetSumConcat(a, b[..|b| - 1]);
      assert (a + b)[..|a + b| - 1] == a + b[..|b| - 1];
    }
  }

  lemma UnionSize<T>(a: set<T>, b: set<T>)
    ensures |a + b| <= |a| + |b|
  {
    assert a + b == a + (b - a);
    SubsetSize(b - a, b);
  }

  /** Fixed windows give a sliding bound: whatever the call sequence, any
      interval as long as the window admits at most twice each budget. */
  lemma SlidingBound(l: Limits, calls: seq<Call>, from: nat)
    requires l.window > 0 && Ordered(calls)
    ensures |Hits(l, calls, from)| <= 2 * l.maxQueries
    ensures OctetSum(Hits(l, calls, from)) <= 2 * l.maxQueryOctets
    ensures |Names(Hits(l, calls, from))| <= 2 * l.maxUniqueNames
    ensures |Labels(Hits(l, calls, from))| <= 2 * l.maxDynamicLabels
  {
    var older, newer := HitsFromTwoWindows(l, calls, from);
    OctetSumConcat(older, newer);
    assert Names(older + newer) == Names(older) + Names(newer);
    UnionSize(Names(older), Names(newer));
    assert Labels(older + newer) <= Labels(older) + Labels(newer);
    SubsetSize(Labels(older + newer), Labels(older) + Labels(newer));
    UnionSize(Labels(older), Labels(newer));
  }

  // ---- When one budget is enough -------------------------------------------

  /** The window rolls inside the interval after a query was admitted there. */
  predicate RollsAfterHit(l: Limits, calls: seq<Call>, from: nat) {
    calls != [] &&
    var init, last := calls[..|calls| - 1], calls[|calls| - 1];
    || RollsAfterHit(l, init, from)
    || (Hits(l, init, from) != [] && last.now < from + l.window && Expired(l, After(l, init), last.now))
  }

  lemma OrderedPrefix(calls: seq<Call>)
    requires Ordered(calls) && calls != []
    ensures Ordered(calls[..|calls| - 1])
    ensures forall i | 0 <= i < |calls| - 1 :: calls[i].now <= calls[|calls| - 1].now
  {
  }

  lemma {:induction false} NoHitsBefore(l: Limits, calls: seq<Call>, from: nat)
    requires forall i | 0 <= i < |calls| :: calls[i].now < from
    ensures Hits(l, calls, from) == []
  {
    if calls != [] {
      NoHitsBefore(l, calls[..|calls| - 1], from);
    }
  }

  /** Until then the interval's queries are the newest of one window. */
  lemma {:induction false} HitsOfOneWindow(l: Limits, calls: seq<Call>, from: nat)
    requires l.window > 0 && Ordered(calls) && !RollsAfterHit(l, calls, from)
    ensures Within(l, Hits(l, calls, from))
    ensures calls == [] || calls[|calls| - 1].now < from + l.window ==> IsSuffix(Hits(l, calls, from), Log(l, calls))
  {
    if calls == [] {
      EmptyWithin(l);
    } else {
      var init, last := calls[..|calls| - 1], calls[|calls| - 1];
      OrderedPrefix(calls);
      HitsOfOneWindow(l, init, from);
      var hits, log := Hits(l, init, from), Log(l, init);
      hide LastVerdict, After, Within, Expired;
      if last.now >= from + l.window {
        assert Hits(l, calls, from) == hits;
      } else {
        if last.now < from {
          NoHitsBefore(l, init, from);
        }
        var rolled, admitted := Expired(l, After(l, init), last.now), LastVerdict(l, calls).Admitted?;
        SuffixGoesOn(hits, log, rolled, admitted, from <= last.now, last.name);
        GuardIsFold(l, calls);
        SuffixWithin(l, Hits(l, calls, from), Log(l, calls));
      }
    }
  }

  lemma SuffixGoesOn(hits: seq<string>, log: seq<string>, rolled: bool, admitted: bool, inside: bool, name: string)
    requires IsSuffix(hits, log) && (rolled || !inside ==> hits == [])
    ensures IsSuffix(hits + (if admitted && inside then [name] else []),
                     (if rolled then [] else log) + (if admitted then [name] else []))
  {
    if admitted && !rolled {
      var more := log + [name];
      assert |hits| <= |log| && more[|more| - |hits + [name]|..] == hits + [name];
    }
    assert hits + [] == hits && log + [] == log;
  }

  /** One budget holds over an interval as long as the window unless the window
      rolls inside it after a query was admitted there. */
  lemma WithinUntilRoll(l: Limits, calls: seq<Call>, from: nat)
    requires l.window > 0 && Ordered(calls) && !RollsAfterHit(l, calls, from)
    ensures Within(l, Hits(l, calls, from))
  {
    HitsOfOneWindow(l, calls, from);
  }

  // ---- The guard object ----------------------------------------------------

  /** Structural validation of a normalized name. */
  function StructureVerdict(l: Limits, name: string): (r: Option<DnsLimit>) {
    var labels := Splitting.Split(name, '.');
    if Domain.Octets(name) > l.maxQnameOctets then Some(QnameOctets)
    else if exists i | 0 <= i < |labels| :: Domain.Octets(labels[i]) > l.maxLabelOctets then Some(LabelOctets)
    else if |labels| > l.maxLabels then Some(LabelCount)
    else None
  }

  class DnsGuard {
    const limits: Limits
    var windowStart: Option<nat>
    var queries: nat
    var queryOctets: nat
    var uniqueNames: set<string>
    var dynamicLabels: set<string>

    function View(): (w: Window)
      reads this
    {
      Window(windowStart, queries, queryOctets, uniqueNames, dynamicLabels)
    }

    constructor (limits: Limits)
      ensures this.limits == limits && View() == EMPTY_WINDOW
    {
      this.limits := limits;
      windowStart, queries, queryOctets, uniqueNames, dynamicLabels := None, 0, 0, {}, {};
    }

    /** `check_structure`: counts labels while looking for one that is too long. */
    method CheckStructure(normalized: string) returns (r: Option<DnsLimit>)
      ensures r == StructureVerdict(limits, normalized)
    {
      if Domain.Octets(normalized) > limits.maxQnameOctets {
        return Some(QnameOctets);
      }
      var labels := Splitting.Split(normalized, '.');
      var labelCount := 0;
      while labelCount < |labels|
        invariant 0 <= labelCount <= |labels|
        invariant forall i | 0 <= i < labelCount :: Domain.Octets(labels[i]) <= limits.maxLabelOctets
      {
        if Domain.Octets(labels[labelCount]) > limits.maxLabelOctets {
          return Some(LabelOctets);
        }
        labelCount := labelCount + 1;
      }
      if labelCount > limits.maxLabels {
        return Some(LabelCount);
      }
      return None;
    }

    method Reset(now: nat)
      modifies this
      ensures View() == Window(Some(now), 0, 0, {}, {})
    {
      windowStart := Some(now);
      queries := 0;
      queryOctets := 0;
      uniqueNames := {};
      dynamicLabels := {};
    }

    method AdmitQuery(normalized: string, now: nat) returns (verdict: Verdict)
      modifies this
      ensures (View(), verdict) == Admit(limits, old(View()), normalized, now)
    {
      var expired := match windowStart
        case None => true
        case Some(start) => limits.window == 0 || (if now < start then 0 else now - start) >= limits.window;
      if expired {
        Reset(now);
      }
      verdict := ChargeIfWithin(normalized);
    }

    /** The part of `admit` after the window is known to be current. */
    method ChargeIfWithin(normalized: string) returns (verdict: Verdict)
      modifies this
      ensures verdict == Judge(limits, old(View()), normalized)
      ensures View() == if verdict.Admitted? then Charge(old(View()), normalized) else old(View())
    {
      hide Domain.Octets, Domain.LeftmostLabel;
      var octets := Domain.Octets(normalized);
      var first := Domain.LeftmostLabel(normalized);
      if SaturatingAdd(queries, 1, U32_MAX) > limits.maxQueries {
        return Rejected(QueryCount);
      }
      if SaturatingAdd(queryOctets, octets, U64_MAX) > limits.maxQueryOctets {
        return Rejected(QueryOctets);
      }
      var nameIsNew := normalized !in uniqueNames;
      if nameIsNew && |uniqueNames| >= limits.maxUniqueNames {
        return Rejected(UniqueNames);
      }
      var labelIsNew := first !in dynamicLabels;
      if labelIsNew && |dynamicLabels| >= limits.maxDynamicLabels {
        return Rejected(DynamicLabels);
      }
      if queries + 1 > U32_MAX || queryOctets + octets > U64_MAX {
        return Overflow;
      }
      queries := queries + 1;
      queryOctets := queryOctets + octets;
      if nameIsNew {
        uniqueNames := uniqueNames + {normalized};
      }
      if labelIsNew {
        dynamicLabels := dynamicLabels + {first};
      }
      assert uniqueNames == old(uniqueNames) + {normalized};
      assert dynamicLabels == old(dynamicLabels) + {first};
      return Admitted;
    }
  }
}
