/** The syscall trace report: what its counters say about the events recorded. */
module TraceReport {
  import opened Prelude

  const MAX_TRACE_SAMPLES: nat := 256
  const MAX_SYSCALL_COUNTERS: nat := 1024

  datatype Event =
    | ProcessExec(timestamp: nat, pid: nat, tgid: nat)
    | SyscallEnter(timestamp: nat, pid: nat, tgid: nat, id: nat)
    | McpObservation

  datatype Sample = Sample(timestamp: nat, pid: nat, tgid: nat, syscall: Option<nat>)

  datatype Error = McpPayload | CounterOverflow | CollectionBounds | SampleAccounting | CountersExceedObserved

  datatype Report = Report(
    observed: nat,
    sampledOut: nat,
    uncounted: nat,
    counts: map<nat, nat>,
    samples: seq<Sample>)

  const EMPTY := Report(0, 0, 0, map[], [])

  function SampleOf(e: Event): (r: Option<Sample>) {
    match e
    case ProcessExec(t, p, g) => Some(Sample(t, p, g, None))
    case SyscallEnter(t, p, g, id) => Some(Sample(t, p, g, Some(id)))
    case McpObservation => None
  }

  function Increment(n: nat): (r: Result<nat, Error>) {
    if n < U64_MAX then Success(n + 1) else Failure(CounterOverflow)
  }

  /** A call that fails part of the way still leaves what it has written. */
  datatype Recorded = Recorded(report: Report, error: Option<Error>)

  function CountSyscall(r: Report, id: nat): (x: Recorded) {
    if |r.counts| < MAX_SYSCALL_COUNTERS || id in r.counts then
      var entered := if id in r.counts then r.counts else r.counts[id := 0];
      match Increment(entered[id])
      case Failure(e) => Recorded(r.(counts := entered), Some(e))
      case Success(n) => Recorded(r.(counts := entered[id := n]), None)
    else
      match Increment(r.uncounted)
      case Failure(e) => Recorded(r, Some(e))
      case Success(n) => Recorded(r.(uncounted := n), None)
  }

  function KeepSample(r: Report, s: Sample): (x: Recorded) {
    if |r.samples| < MAX_TRACE_SAMPLES then Recorded(r.(samples := r.samples + [s]), None)
    else
      match Increment(r.sampledOut)
      case Failure(e) => Recorded(r, Some(e))
      case Success(n) => Recorded(r.(sampledOut := n), None)
  }

  /** `record`. */
  function Record(r: Report, e: Event): (x: Recorded) {
    match SampleOf(e)
    case None => Recorded(r, Some(McpPayload))
    case Some(s) =>
      match Increment(r.observed)
      case Failure(error) => Recorded(r, Some(error))
      case Success(n) =>
        var seen := r.(observed := n);
        var counted := if s.syscall.Some? then CountSyscall(seen, s.syscall.value) else Recorded(seen, None);
        if counted.error.Some? then counted else KeepSample(counted.report, s)
  }

  /** The report after any sequence of calls, failed ones included. */
  function Run(events: seq<Event>): (r: Report) {
    if events == [] then EMPTY else Record(Run(events[..|events| - 1]), events[|events| - 1]).report
  }

  // ---- What was recorded ---------------------------------------------------

  /** The samples of the events that `record` takes: all but MCP payloads, until
      the counter of observed events is full. */
  function Taken(events: seq<Event>): (r: seq<Sample>) {
    if events == [] then []
    else
      var earlier, s := Taken(events[..|events| - 1]), SampleOf(events[|events| - 1]);
      if s.Some? && |earlier| < U64_MAX then earlier + [s.value] else earlier
  }

  function Calls(samples: seq<Sample>, id: nat): (n: nat)
    ensures n <= |samples|
  {
    if samples == [] then 0
    else Calls(samples[..|samples| - 1], id) + (if samples[|samples| - 1].syscall == Some(id) then 1 else 0)
  }

  function Syscalls(samples: seq<Sample>): (n: nat)
    ensures n <= |samples|
  {
    if samples == [] then 0
    else Syscalls(samples[..|samples| - 1]) + (if samples[|samples| - 1].syscall.Some? then 1 else 0)
  }

  ghost function Pick(keys: set<nat>): (k: nat)
    requires keys != {}
    ensures k in keys
  {
    var k :| k in keys;
    k
  }

  ghost function TotalOver(counts: map<nat, nat>, keys: set<nat>): (n: nat)
    requires keys <= counts.Keys
    decreases |keys|
  {
    if keys == {} then 0 else counts[Pick(keys)] + TotalOver(counts, keys - {Pick(keys)})
  }

  ghost function Total(counts: map<nat, nat>): (n: nat) {
    TotalOver(counts, counts.Keys)
  }

  lemma {:induction false} TotalTake(counts: map<nat, nat>, keys: set<nat>, k: nat)
    requires k in keys && keys <= counts.Keys
    ensures TotalOver(counts, keys) == counts[k] + TotalOver(counts, keys - {k})
    decreases |keys|
  {
    var j := Pick(keys);
    if j != k {
      TotalTake(counts, keys - {j}, k);
      TotalTake(counts, keys - {k}, j);
      assert keys - {j} - {k} == keys - {k} - {j};
    }
  }

  lemma {:induction false} TotalSame(a: map<nat, nat>, b: map<nat, nat>, keys: set<nat>)
    requires keys <= a.Keys && keys <= b.Keys && forall k | k in keys :: a[k] == b[k]
    ensures TotalOver(a, keys) == TotalOver(b, keys)
    decreases |keys|
  {
    if keys != {} {
      TotalSame(a, b, keys - {Pick(keys)});
    }
  }

  lemma TotalPut(counts: map<nat, nat>, k: nat, n: nat)
    ensures Total(counts[k := n]) == n + TotalOver(counts, counts.Keys - {k})
    ensures Total(counts) == (if k in counts then counts[k] else 0) + TotalOver(counts, counts.Keys - {k})
  {
    var put := counts[k := n];
    TotalTake(put, put.Keys, k);
    assert put.Keys - {k} == counts.Keys - {k};
    TotalSame(put, counts, counts.Keys - {k});
    if k in counts {
      TotalTake(counts, counts.Keys, k);
    } else {
      assert counts.Keys - {k} == counts.Keys;
    }
  }

  /** Every counted id has its exact number of calls; an id without a counter was
      refused one because all counters are taken. */
  ghost predicate CountsExact(counts: map<nat, nat>, taken: seq<Sample>) {
    CountersRight(counts, taken) && (|counts| < MAX_SYSCALL_COUNTERS ==> NoneMissing(counts, taken))
  }

  ghost predicate CountersRight(counts: map<nat, nat>, taken: seq<Sample>) {
    forall id | id in counts :: counts[id] == Calls(taken, id)
  }

  ghost predicate NoneMissing(counts: map<nat, nat>, taken: seq<Sample>) {
    forall id | id !in counts :: Calls(taken, id) == 0
  }

  ghost predicate Accounts(r: Report, taken: seq<Sample>) {
    && r.observed == |taken| <= U64_MAX
    && r.samples == (if |taken| <= MAX_TRACE_SAMPLES then taken else taken[..MAX_TRACE_SAMPLES])
    && r.sampledOut == |taken| - |r.samples|
    && |r.counts| <= MAX_SYSCALL_COUNTERS
    && Total(r.counts) + r.uncounted == Syscalls(taken)
    && CountsExact(r.counts, taken)
  }

  lemma CallsAppend(taken: seq<Sample>, s: Sample, id: nat)
    ensures Calls(taken + [s], id) == Calls(taken, id) + (if s.syscall == Some(id) then 1 else 0)
    ensures Syscalls(taken + [s]) == Syscalls(taken) + (if s.syscall.Some? then 1 else 0)
  {
    assert (taken + [s])[..|taken|] == taken;
  }

  lemma CounterRight(counts: map<nat, nat>, taken: seq<Sample>, s: Sample, id: nat, n: nat)
    requires s.syscall == Some(id) && CountersRight(counts, taken) && n == Calls(taken, id)
    ensures CountersRight(counts[id := n + 1], taken + [s])
  {
    hide Calls;
    var put := counts[id := n + 1];
    forall i | i in put ensures put[i] == Calls(taken + [s], i) {
      CallsAppend(taken, s, i);
    }
  }

  lemma CounterMissing(counts: map<nat, nat>, taken: seq<Sample>, s: Sample, id: nat, n: nat)
    requires s.syscall == Some(id) && NoneMissing(counts, taken)
    ensures NoneMissing(counts[id := n], taken + [s])
  {
    hide Calls;
    forall i | i !in counts[id := n] ensures Calls(taken + [s], i) == 0 {
      CallsAppend(taken, s, i);
    }
  }

  /** One more call of `id` on a counter that is there, or on a new one. */
  lemma CounterKeeps(counts: map<nat, nat>, taken: seq<Sample>, s: Sample, id: nat, n: nat)
    requires s.syscall == Some(id) && CountsExact(counts, taken)
    requires if id in counts then n == counts[id] else n == 0 && |counts| < MAX_SYSCALL_COUNTERS
    ensures CountsExact(counts[id := n + 1], taken + [s])
    ensures Total(counts[id := n + 1]) == Total(counts) + 1 && n <= Total(counts)
  {
    TotalPut(counts, id, n + 1);
    hide Total, TotalOver, Calls;
    PutGrows(counts, id, n + 1);
    assert n == Calls(taken, id);
    CounterRight(counts, taken, s, id, n);
    if |counts| < MAX_SYSCALL_COUNTERS {
      CounterMissing(counts, taken, s, id, n + 1);
    }
    hide CountersRight, NoneMissing;
  }

  lemma PutGrows(counts: map<nat, nat>, id: nat, n: nat)
    ensures |counts| <= |counts[id := n]| <= |counts| + 1
    ensures id in counts ==> |counts[id := n]| == |counts|
  {
    var put := counts[id := n];
    assert put.Keys == counts.Keys + {id};
    assert |put.Keys| == |put| && |counts.Keys| == |counts|;
    if id in counts {
      assert put.Keys == counts.Keys;
    }
  }

  lemma RefusedKeeps(counts: map<nat, nat>, taken: seq<Sample>, s: Sample, id: nat)
    requires s.syscall == Some(id) && CountsExact(counts, taken) && id !in counts && |counts| >= MAX_SYSCALL_COUNTERS
    ensures CountsExact(counts, taken + [s])
  {
    forall i ensures Calls(taken + [s], i) == Calls(taken, i) + (if i == id then 1 else 0) {
      CallsAppend(taken, s, i);
    }
    hide Calls;
  }

  lemma CountKeeps(r: Report, taken: seq<Sample>, s: Sample)
    requires s.syscall.Some? && |r.counts| <= MAX_SYSCALL_COUNTERS && CountsExact(r.counts, taken)
    requires Total(r.counts) + r.uncounted == Syscalls(taken) && |taken| < U64_MAX
    ensures var x := CountSyscall(r, s.syscall.value);
            && x.error.None? && x.report == r.(counts := x.report.counts, uncounted := x.report.uncounted)
            && |x.report.counts| <= MAX_SYSCALL_COUNTERS && CountsExact(x.report.counts, taken + [s])
            && Total(x.report.counts) + x.report.uncounted == Syscalls(taken + [s])
  {
    hide CountsExact, Total, Syscalls;
    var id := s.syscall.value;
    CallsAppend(taken, s, id);
    if id in r.counts || |r.counts| < MAX_SYSCALL_COUNTERS {
      var n := if id in r.counts then r.counts[id] else 0;
      CounterKeeps(r.counts, taken, s, id, n);
      var entered := if id in r.counts then r.counts else r.counts[id := 0];
      assert entered[id := n + 1] == r.counts[id := n + 1];
    } else {
      RefusedKeeps(r.counts, taken, s, id);
    }
  }

  /** `record` fails only for an MCP payload or when the counter of observed
      events is full, and then changes nothing; otherwise the accounts stay exact. */
  lemma RecordKeeps(r: Report, taken: seq<Sample>, e: Event)
    requires Accounts(r, taken)
    ensures var x := Record(r, e);
            && (x.error.Some? <==> e.McpObservation? || r.observed == U64_MAX)
            && (x.error.Some? ==> x.report == r)
            && (x.error.None? ==> Accounts(x.report, taken + [SampleOf(e).value]))
  {
    hide CountsExact, Total, Syscalls, CountSyscall;
    if !e.McpObservation? && r.observed < U64_MAX {
      var s, seen := SampleOf(e).value, r.(observed := r.observed + 1);
      if s.syscall.Some? {
        CountKeeps(seen, taken, s);
      } else {
        ExecKeeps(r.counts, taken, s);
      }
      assert |taken| >= MAX_TRACE_SAMPLES ==> (taken + [s])[..MAX_TRACE_SAMPLES] == taken[..MAX_TRACE_SAMPLES];
    }
  }

  lemma ExecKeeps(counts: map<nat, nat>, taken: seq<Sample>, s: Sample)
    requires CountsExact(counts, taken) && s.syscall.None?
    ensures CountsExact(counts, taken + [s]) && Syscalls(taken + [s]) == Syscalls(taken)
  {
    forall id ensures Calls(taken + [s], id) == Calls(taken, id) {
      CallsAppend(taken, s, id);
    }
    CallsAppend(taken, s, 0);
  }

  lemma {:induction false} EveryRunAccounts(events: seq<Event>)
    ensures Accounts(Run(events), Taken(events))
  {
    if events != [] {
      var front, e := events[..|events| - 1], events[|events| - 1];
      EveryRunAccounts(front);
      hide Accounts, Record;
      RecordKeeps(Run(front), Taken(front), e);
      ObservedIsTaken(Run(front), Taken(front));
    }
  }

  lemma ObservedIsTaken(r: Report, taken: seq<Sample>)
    requires Accounts(r, taken)
    ensures r.observed == |taken| <= U64_MAX
  {
  }

  // ---- Validation ----------------------------------------------------------

  /** The accounting checks of `validate`, in its order. */
  ghost function AccountError(r: Report): (error: Option<Error>) {
    if |r.samples| > MAX_TRACE_SAMPLES || |r.counts| > MAX_SYSCALL_COUNTERS then Some(CollectionBounds)
    else if r.observed != |r.samples| + r.sampledOut then Some(SampleAccounting)
    else if Total(r.counts) > U64_MAX then Some(CounterOverflow)
    else if Total(r.counts) + r.uncounted > U64_MAX || Total(r.counts) + r.uncounted > r.observed then
      Some(CountersExceedObserved)
    else None
  }

  method ValidateAccounts(r: Report) returns (error: Option<Error>)
    ensures error == AccountError(r)
  {
    if |r.samples| > MAX_TRACE_SAMPLES || |r.counts| > MAX_SYSCALL_COUNTERS {
      return Some(CollectionBounds);
    }
    if r.observed < |r.samples| || r.observed - |r.samples| != r.sampledOut {
      return Some(SampleAccounting);
    }
    var counted, left := 0, r.counts.Keys;
    while left != {}
      invariant left <= r.counts.Keys && counted + TotalOver(r.counts, left) == Total(r.counts) && counted <= U64_MAX
      decreases |left|
    {
      var id :| id in left;
      TotalTake(r.counts, left, id);
      if counted + r.counts[id] > U64_MAX {
        return Some(CounterOverflow);
      }
      counted, left := counted + r.counts[id], left - {id};
    }
    if counted + r.uncounted > U64_MAX || counted + r.uncounted > r.observed {
      return Some(CountersExceedObserved);
    }
    return None;
  }

  /** After any calls the accounts are exact: samples are the first 256 events
      taken, each counter holds its id's exact number of calls, and the sums are
      those `validate` checks. */
  lemma ReportIsExact(events: seq<Event>)
    ensures var r, taken := Run(events), Taken(events);
            && r.observed == |r.samples| + r.sampledOut == |taken| <= U64_MAX
            && r.samples <= taken && |r.samples| == (if |taken| < 256 then |taken| else 256)
            && Total(r.counts) + r.uncounted == Syscalls(taken) <= r.observed
            && |r.counts| <= 1024
            && (forall id | id in r.counts :: r.counts[id] == Calls(taken, id))
            && (forall id | id !in r.counts && Calls(taken, id) > 0 :: |r.counts| == 1024)
  {
    EveryRunAccounts(events);
    hide Run, Taken, Total, Calls, Syscalls;
  }

  /** A sample carries the time and the process of its event, and the number of the
      system call exactly if it was one. */
  lemma SampleExactly(e: Event)
    ensures e.McpObservation? <==> SampleOf(e).None?
    ensures SampleOf(e).Some? ==>
              var s := SampleOf(e).value;
              && s.timestamp == e.timestamp && s.pid == e.pid && s.tgid == e.tgid
              && (e.SyscallEnter? ==> s.syscall == Some(e.id)) && (s.syscall.Some? ==> e.SyscallEnter?)
  {
  }

  /** A report is accepted exactly when its accounts add up: samples and counters within
      bounds, every observed event sampled or sampled out, and no more calls counted
      than events observed. */
  lemma AccountsExactly(r: Report)
    requires r.observed <= U64_MAX
    ensures AccountError(r).None? <==>
            && |r.samples| <= 256 && |r.counts| <= 1024 && r.observed == |r.samples| + r.sampledOut
            && Total(r.counts) + r.uncounted <= r.observed
  {
    hide Total;
  }

  /** Whatever was recorded, validation finds no fault in the accounts. */
  lemma RunsValidate(events: seq<Event>)
    ensures AccountError(Run(events)).None?
  {
    ReportIsExact(events);
    hide Run, Taken, Total, Calls, Syscalls;
  }

  // ---- The report object ---------------------------------------------------

  class Recorder {
    var observed: nat
    var sampledOut: nat
    var uncounted: nat
    var counts: map<nat, nat>
    var samples: seq<Sample>

    ghost function View(): (r: Report)
      reads this
    {
      Report(observed, sampledOut, uncounted, counts, samples)
    }

    constructor ()
      ensures View() == EMPTY
    {
      observed, sampledOut, uncounted, counts, samples := 0, 0, 0, map[], [];
    }

    /** `record` as written. */
    method RecordEvent(e: Event) returns (r: Result<Sample, Error>)
      modifies this
      ensures View() == Record(old(View()), e).report
      ensures match Record(old(View()), e).error
              case Some(error) => r == Failure(error)
              case None => r.Success? && SampleOf(e) == Some(r.value)
    {
      var sample := SampleOf(e);
      if sample.None? {
        return Failure(McpPayload);
      }
      var s := sample.value;
      observed :- Increment(observed);
      if s.syscall.Some? {
        var id := s.syscall.value;
        if |counts| < MAX_SYSCALL_COUNTERS || id in counts {
          if id !in counts {
            counts := counts[id := 0];
          }
          var n :- Increment(counts[id]);
          counts := counts[id := n];
        } else {
          uncounted :- Increment(uncounted);
        }
      }
      if |samples| < MAX_TRACE_SAMPLES {
        samples := samples + [s];
      } else {
        sampledOut :- Increment(sampledOut);
      }
      return Success(s);
    }
  }
}
