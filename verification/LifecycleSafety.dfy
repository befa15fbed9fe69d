/** What every run keeps, whichever points fail. */
module LifecycleSafety {
  import opened Lifecycle

  // ---- States --------------------------------------------------------------

  function Ordinal(a: AgentState): (n: nat) {
    match a
    case Planned => 0
    case Preflighted => 1
    case Initialized => 2
    case Created => 3
    case Started => 4
    case ChannelProvisioned => 5
    case GuestReady => 6
    case SecretsResolved => 7
    case Running => 8
    case Stopping => 9
    case Cleaning => 10
    case Completed => 11
    case Failed => 12
  }

  predicate ForwardAt(states: seq<AgentState>, i: nat)
    requires i + 1 < |states|
  {
    CanTransition(states[i], states[i + 1]) && Ordinal(states[i]) < Ordinal(states[i + 1])
  }

  /** A strictly advancing path of permitted transitions. */
  ghost predicate Forward(states: seq<AgentState>) {
    forall i: nat | i + 1 < |states| :: ForwardAt(states, i)
  }

  /** A state the code has and no run enters. */
  predicate Unused(a: AgentState) {
    a.Stopping? || a.Failed?
  }

  ghost predicate Recorded(state: AgentState, states: seq<AgentState>) {
    && states != [] && states[0] == Planned && states[|states| - 1] == state && Forward(states)
    && forall a | a in states :: !Unused(a)
  }

  lemma AdvanceRecords(state: AgentState, states: seq<AgentState>, next: AgentState)
    requires Recorded(state, states) && CanTransition(state, next) && !Unused(next)
    ensures Recorded(next, states + [next])
  {
    forall i: nat | i + 1 < |states + [next]| ensures ForwardAt(states + [next], i) {
      if i + 1 < |states| {
        assert ForwardAt(states, i);
      }
    }
  }

  /** The state in force when a point is met. */
  function StateAt(s: Step): (a: AgentState) {
    match s
    case ReadClock | Boundary | CheckCancelled | Preflight | Compatible => Planned
    case Initialize => Preflighted
    case Create => Initialized
    case Start => Created
    case ResolveBootstrap | Material | Provision => Started
    case AcceptDeadline | Accept | ConnectDeadline | Connect | Capabilities => ChannelProvisioned
    case ResolveSecret(_) => GuestReady
    case AllSecrets => GuestReady
    case Launch => SecretsResolved
    case _ => Running
  }

  /** What the context holds when a point is met: the state and every resource
      acquired before it, and no refused transition or failed `expect`. */
  ghost predicate At(c: Context, s: Step) {
    && Recorded(c.state, c.states) && c.state == StateAt(s) && !c.refused && !c.broken
    && Holds(c.held, s)
  }

  ghost predicate Holds(held: set<Step>, s: Step) {
    forall t :: t in held <==> Acquires(t) && Rank(t) < Rank(s)
  }

  predicate IsPrimary(s: Step) {
    Rank(s) <= 22
  }

  /** The point after the last one is the start of cleanup. */
  function NextOrEnd(p: Plan, s: Step): (r: Step) {
    Next(p, s).UnwrapOr(CancelExecution)
  }

  lemma NextIsPrimary(p: Plan, s: Step)
    requires IsPrimary(s)
    ensures Next(p, s).Some? ==> IsPrimary(Next(p, s).value)
  {
  }

  lemma NextRank(p: Plan, s: Step)
    requires IsPrimary(s)
    ensures var r, n := Rank(s), Rank(NextOrEnd(p, s));
            if s.ResolveSecret? then r <= n <= r + 1
            else if s.Capabilities? then r < n <= r + 2
            else r < n && (n == r + 1 || r > Rank(Launch))
  {
  }

  lemma SameRank(s: Step, t: Step)
    requires Acquires(t)
    ensures Rank(t) == Rank(s) <==> t == s
    ensures Rank(t) <= Rank(Launch)
    ensures Rank(t) <= Rank(Capabilities) || t == Launch
  {
  }

  /** Between a point and the next nothing else is acquired. */
  lemma NextInOrder(p: Plan, s: Step, t: Step)
    requires IsPrimary(s) && Acquires(t)
    ensures Rank(t) < Rank(NextOrEnd(p, s)) <==> Rank(t) < Rank(s) || t == s
  {
    NextRank(p, s);
    SameRank(s, t);
    assert Rank(Launch) == Rank(Capabilities) + 3 && (s.ResolveSecret? ==> Rank(s) == Rank(Capabilities) + 1);
    hide Rank, NextOrEnd, Acquires, IsPrimary;
  }

  /** The state moves by the point's own milestone. */
  lemma StateFollows(p: Plan, s: Step)
    requires IsPrimary(s)
    ensures match Milestone(s)
            case None => StateAt(NextOrEnd(p, s)) == StateAt(s)
            case Some(a) => StateAt(NextOrEnd(p, s)) == a && CanTransition(StateAt(s), a) && !Unused(a)
  {
  }

  lemma NeedsMet(held: set<Step>, s: Step)
    requires Holds(held, s)
    ensures Needs(s) <= held
  {
    assert Acquires(Provision) && Acquires(Capabilities) && Acquires(Launch);
  }

  lemma PassingKeeps(p: Plan, c: Context, s: Step)
    requires At(c, s) && IsPrimary(s)
    ensures At(Effect(c, s), NextOrEnd(p, s))
  {
    hide Rank, Acquires, Needs, Milestone, StateAt, CanTransition, Recorded, Next, NextOrEnd, IsPrimary;
    StateFollows(p, s);
    NeedsMet(c.held, s);
    var held := Store(c, s).held;
    forall t ensures t in held <==> Acquires(t) && Rank(t) < Rank(NextOrEnd(p, s)) {
      if Acquires(t) {
        NextInOrder(p, s, t);
      }
    }
    if Milestone(s).Some? {
      AdvanceRecords(c.state, c.states, Milestone(s).value);
    }
  }

  // ---- The primary run -----------------------------------------------------

  predicate Passed(w: World, met: seq<Step>, s: Step) {
    s in met && w.ok(s)
  }

  /** A primary run stops at the point it could not pass, or after the last one,
      with the context that point stands for. */
  lemma {:induction false} PrimaryEnds(p: Plan, w: World, s: Step, c: Context)
    requires At(c, s) && IsPrimary(s)
    ensures var r := RunFrom(p, w, s, c);
            && r.met != [] && At(r.context, if r.ok then CancelExecution else r.met[|r.met| - 1])
    decreases Left(p, s)
  {
    hide At, IsPrimary, Next, Effect, Left;
    if s == AllSecrets || w.ok(s) {
      PassingKeeps(p, c, s);
      NextIsPrimary(p, s);
      NextIsCloser(p, s);
      if Next(p, s).Some? {
        PrimaryEnds(p, w, Next(p, s).value, Effect(c, s));
      }
    }
  }

  lemma EffectHolds(c: Context, s: Step, t: Step)
    requires Acquires(t)
    ensures t in Effect(c, s).held <==> t in c.held || t == s
  {
    hide Milestone, CanTransition, Needs;
  }

  /** A resource is held exactly when its point was passed. */
  lemma {:induction false} HeldExactly(p: Plan, w: World, s: Step, c: Context, t: Step)
    requires Acquires(t)
    ensures var r := RunFrom(p, w, s, c);
            t in r.context.held <==> t in c.held || Passed(w, r.met, t)
    decreases Left(p, s)
  {
    hide Next, Left, Effect, Passed;
    PassedCons(w, s, [], t);
    assert [s] + [] == [s];
    if s == AllSecrets || w.ok(s) {
      EffectHolds(c, s, t);
      NextIsCloser(p, s);
      if Next(p, s).Some? {
        var next := Next(p, s).value;
        HeldExactly(p, w, next, Effect(c, s), t);
        PassedCons(w, s, RunFrom(p, w, next, Effect(c, s)).met, t);
      }
    }
  }

  lemma PassedCons(w: World, s: Step, rest: seq<Step>, t: Step)
    ensures Passed(w, [s] + rest, t) <==> (s == t && w.ok(t)) || Passed(w, rest, t)
    ensures !Passed(w, [], t)
  {
  }

  ghost predicate Distinct(met: seq<Step>) {
    forall i, j | 0 <= i < j < |met| :: met[i] != met[j]
  }

  ghost predicate AllPassed(w: World, met: seq<Step>) {
    forall i | 0 <= i < |met| :: met[i] == AllSecrets || w.ok(met[i])
  }

  lemma AllPassedCons(w: World, s: Step, rest: seq<Step>)
    ensures AllPassed(w, [s] + rest) <==> (s == AllSecrets || w.ok(s)) && AllPassed(w, rest)
  {
    var met := [s] + rest;
    assert met[0] == s && forall i | 0 <= i < |rest| :: rest[i] == met[i + 1];
  }

  /** No point is met twice, and every one but the last was passed. */
  lemma {:induction false} MetOnce(p: Plan, w: World, s: Step, c: Context)
    requires IsPrimary(s)
    ensures var r := RunFrom(p, w, s, c);
            && Distinct(r.met)
            && (forall i | 0 <= i < |r.met| :: IsPrimary(r.met[i]) && Left(p, r.met[i]) <= Left(p, s))
            && (r.ok <==> AllPassed(w, r.met))
    decreases Left(p, s)
  {
    hide Next, Effect, Left, IsPrimary;
    AllPassedCons(w, s, []);
    assert [s] + [] == [s];
    if s == AllSecrets || w.ok(s) {
      NextIsPrimary(p, s);
      NextIsCloser(p, s);
      if Next(p, s).Some? {
        MetOnce(p, w, Next(p, s).value, Effect(c, s));
        var rest := RunFrom(p, w, Next(p, s).value, Effect(c, s));
        AllPassedCons(w, s, rest.met);
        hide AllPassed;
        assert RunFrom(p, w, s, c).met == [s] + rest.met;
      }
    }
  }

  // ---- The whole run -------------------------------------------------------

  lemma NewStarts()
    ensures At(NEW, ReadClock)
  {
  }

  /** The recorded states always form a strictly advancing path of permitted
      transitions from `Planned` that never enters `Stopping` or `Failed`; no
      transition is refused and no `expect` fails, whichever points fail. */
  lemma LifecycleForward(p: Plan, w: World)
    ensures var c := Run(p, w).context; Recorded(c.state, c.states) && !c.refused && !c.broken
    ensures Start in Run(p, w).context.held ==> Create in Run(p, w).context.held
    ensures Run(p, w).outcome != Refused
  {
    hide At, RunFrom, Recorded, Releases, FailuresOf;
    NewStarts();
    PrimaryEnds(p, w, ReadClock, NEW);
    var r := RunFrom(p, w, ReadClock, NEW);
    var end := if r.ok then CancelExecution else r.met[|r.met| - 1];
    AtRecorded(r.context, end);
    CleaningRecorded(r.context);
    var c := EnterCleaning(r.context);
    if r.ok {
      AdvanceRecords(c.state, c.states, AgentState.Completed);
    }
  }

  lemma AtRecorded(c: Context, s: Step)
    requires At(c, s)
    ensures Recorded(c.state, c.states) && !c.refused && !c.broken && c.state == StateAt(s)
    ensures Start in c.held ==> Create in c.held
  {
    assert Acquires(Create) && Rank(Create) < Rank(Start);
  }

  lemma CleaningRecorded(c: Context)
    requires Recorded(c.state, c.states)
    ensures var d := EnterCleaning(c);
            && Recorded(d.state, d.states) && d.held == c.held && d.refused == c.refused && d.broken == c.broken
            && (c.state == Running ==> d.state == Cleaning)
  {
    hide Recorded;
    if CanTransition(c.state, Cleaning) {
      AdvanceRecords(c.state, c.states, Cleaning);
    }
  }

  function Times(met: seq<Step>, s: Step): (n: nat) {
    multiset(met)[s]
  }

  lemma TimesDistinct(met: seq<Step>, s: Step)
    requires Distinct(met)
    ensures Times(met, s) == if s in met then 1 else 0
  {
    if s in met {
      var i :| 0 <= i < |met| && met[i] == s;
      var before, after := met[..i], met[i + 1..];
      assert met == before + [s] + after;
      assert s !in before && s !in after;
    }
  }

  lemma TimesConcat(a: seq<Step>, b: seq<Step>, s: Step)
    ensures Times(a + b, s) == Times(a, s) + Times(b, s)
  {
  }

  lemma TimesWhen(condition: bool, t: Step, s: Step)
    ensures Times(When(condition, t), s) == if condition && s == t then 1 else 0
  {
  }

  lemma ReleaseTimes(held: set<Step>, s: Step)
    ensures Times(Releases(held), s) ==
            match s
            case CancelExecution => if Launch in held then 1 else 0
            case GuestCleanup => if Capabilities in held then 1 else 0
            case ChannelCleanup => if Provision in held then 1 else 0
            case Stop => if Start in held then 1 else 0
            case RuntimeCleanup => if Create in held then 1 else 0
            case _ => 0
  {
    hide Times, When;
    var e, g, c := When(Launch in held, CancelExecution), When(Capabilities in held, GuestCleanup),
        When(Provision in held, ChannelCleanup);
    var t, r := When(Start in held, Stop), When(Create in held, RuntimeCleanup);
    TimesConcat(e, g + (c + (t + r)), s);
    TimesConcat(g, c + (t + r), s);
    TimesConcat(c, t + r, s);
    TimesConcat(t, r, s);
    TimesWhen(Launch in held, CancelExecution, s);
    TimesWhen(Capabilities in held, GuestCleanup, s);
    TimesWhen(Provision in held, ChannelCleanup, s);
    TimesWhen(Start in held, Stop, s);
    TimesWhen(Create in held, RuntimeCleanup, s);
  }

  /** The resource a release call gives back. */
  function Acquired(release: Step): (s: Step) {
    match release
    case CancelExecution => Launch
    case GuestCleanup => Capabilities
    case ChannelCleanup => Provision
    case Stop => Start
    case _ => Create
  }

  predicate IsRelease(s: Step) {
    !IsPrimary(s)
  }

  lemma TimesWithin(met: seq<Step>, s: Step)
    ensures Times(met, s) > 0 <==> s in met
  {
  }

  /** The points of the primary run, then the release calls. */
  lemma MetSplits(p: Plan, w: World)
    ensures var r := RunFrom(p, w, ReadClock, NEW);
            Run(p, w).met == r.met + Releases(r.context.held)
  {
    hide RunFrom, Releases, FailuresOf;
    var c := RunFrom(p, w, ReadClock, NEW).context;
    assert EnterCleaning(c).held == c.held;
  }

  /** Each resource that was acquired gets exactly one release call, and one that
      was not acquired gets none. */
  lemma ReleasedExactlyOnce(p: Plan, w: World, release: Step)
    requires IsRelease(release)
    ensures var met := Run(p, w).met;
            && Times(met, release) == (if Passed(w, met, Acquired(release)) then 1 else 0)
            && Times(met, Acquired(release)) <= 1
  {
    hide RunFrom, Times, Releases, Run;
    var r, t := RunFrom(p, w, ReadClock, NEW), Acquired(release);
    var releases := Releases(r.context.held);
    MetSplits(p, w);
    MetOnce(p, w, ReadClock, NEW);
    HeldExactly(p, w, ReadClock, NEW, t);
    ReleaseTimes(r.context.held, release);
    ReleaseTimes(r.context.held, t);
    TimesConcat(r.met, releases, release);
    TimesConcat(r.met, releases, t);
    TimesDistinct(r.met, release);
    TimesDistinct(r.met, t);
    TimesWithin(releases, t);
  }

  /** Where a release call comes among the five. */
  function ReleaseOrder(s: Step): (n: nat) {
    match s
    case CancelExecution => 1
    case GuestCleanup => 2
    case ChannelCleanup => 3
    case Stop => 4
    case RuntimeCleanup => 5
    case _ => 0
  }

  ghost predicate InOrder(calls: seq<Step>) {
    forall i, j | 0 <= i < j < |calls| :: ReleaseOrder(calls[i]) < ReleaseOrder(calls[j])
  }

  ghost predicate AllAfter(calls: seq<Step>, n: nat) {
    forall i | 0 <= i < |calls| :: n < ReleaseOrder(calls[i])
  }

  lemma WhenInOrder(condition: bool, s: Step, rest: seq<Step>)
    requires InOrder(rest) && AllAfter(rest, ReleaseOrder(s)) && ReleaseOrder(s) > 0
    ensures InOrder(When(condition, s) + rest) && AllAfter(When(condition, s) + rest, ReleaseOrder(s) - 1)
  {
  }

  lemma ReleasesInOrder(held: set<Step>)
    ensures InOrder(Releases(held)) && AllAfter(Releases(held), 0)
  {
    hide InOrder, AllAfter, When;
    assert InOrder([]) && AllAfter([], 5) by { NoneInOrder([]); }
    var r := When(Create in held, RuntimeCleanup);
    WhenInOrder(Create in held, RuntimeCleanup, []);
    assert r + [] == r;
    WhenInOrder(Start in held, Stop, r);
    var t := When(Start in held, Stop) + r;
    WhenInOrder(Provision in held, ChannelCleanup, t);
    var c := When(Provision in held, ChannelCleanup) + t;
    WhenInOrder(Capabilities in held, GuestCleanup, c);
    WhenInOrder(Launch in held, CancelExecution, When(Capabilities in held, GuestCleanup) + c);
  }

  lemma NoneInOrder(none: seq<Step>)
    requires none == []
    ensures InOrder(none) && AllAfter(none, 5)
  {
  }

  lemma IsReleaseExactly(s: Step)
    ensures IsRelease(s) <==> ReleaseOrder(s) > 0
  {
  }

  /** Release calls come after every other point, in the order execution, guest,
      channel, stop, runtime cleanup. */
  lemma ReleasedInOrder(p: Plan, w: World, i: nat, j: nat)
    requires i < j < |Run(p, w).met| && IsRelease(Run(p, w).met[i])
    ensures var met := Run(p, w).met;
            IsRelease(met[j]) && ReleaseOrder(met[i]) < ReleaseOrder(met[j])
  {
    hide RunFrom, Releases, Run, IsPrimary, ReleaseOrder;
    var r := RunFrom(p, w, ReadClock, NEW);
    var releases := Releases(r.context.held);
    MetSplits(p, w);
    assert IsPrimary(ReadClock) by { IsReleaseExactly(ReadClock); FirstIsPrimary(); }
    MetOnce(p, w, ReadClock, NEW);
    ReleasesInOrder(r.context.held);
    var a, b := i - |r.met|, j - |r.met|;
    assert Run(p, w).met[j] == releases[b] && Run(p, w).met[i] == releases[a];
    IsReleaseExactly(releases[b]);
  }

  lemma FirstIsPrimary()
    ensures IsPrimary(ReadClock)
  {
  }

  /** A guest that connected is released exactly when it offered the required
      capabilities: between the two the code has not stored it yet. */
  lemma GuestReleasedExactly(p: Plan, w: World)
    requires Passed(w, Run(p, w).met, Connect)
    ensures Times(Run(p, w).met, GuestCleanup) == if w.ok(Capabilities) then 1 else 0
  {
    hide RunFrom, Times, Releases, Run;
    ReleasedExactlyOnce(p, w, GuestCleanup);
    var r := RunFrom(p, w, ReadClock, NEW);
    MetSplits(p, w);
    ReleaseTimes(r.context.held, Connect);
    TimesWithin(Releases(r.context.held), Connect);
    assert Connect in r.met;
    CapabilitiesFollow(p, w, ReadClock, NEW);
  }

  lemma {:induction false} CapabilitiesFollow(p: Plan, w: World, s: Step, c: Context)
    requires Passed(w, RunFrom(p, w, s, c).met, Connect)
    ensures Capabilities in RunFrom(p, w, s, c).met
    decreases Left(p, s)
  {
    NextIsCloser(p, s);
    hide Effect, Left;
    if s != Connect {
      CapabilitiesFollow(p, w, Next(p, s).value, Effect(c, s));
    }
  }

  lemma RefusedGuest(p: Plan, w: World)
    requires forall s :: w.ok(s) <==> s != Capabilities
    ensures Passed(w, Run(p, w).met, Connect) && Times(Run(p, w).met, GuestCleanup) == 0
  {
    hide Run, RunFrom, Releases, Times;
    MetSplits(p, w);
    ConnectFrom(p, w, ReadClock, NEW);
    GuestReleasedExactly(p, w);
  }

  /** Such a guest: connected, then refused, and never released. */
  lemma UnreleasedGuest(p: Plan)
    ensures exists w: World :: Passed(w, Run(p, w).met, Connect) && Times(Run(p, w).met, GuestCleanup) == 0
  {
    hide Run, Times, Passed;
    var w := World(s => s != Capabilities, CleanupReport(0, 0));
    RefusedGuest(p, w);
  }

  lemma {:induction false} ConnectFrom(p: Plan, w: World, s: Step, c: Context)
    requires (forall t :: w.ok(t) <==> t != Capabilities) && Rank(s) <= 14
    ensures Connect in RunFrom(p, w, s, c).met
    decreases Left(p, s)
  {
    NextIsCloser(p, s);
    hide Effect, Left;
    if s != Connect {
      assert Rank(Next(p, s).value) <= 14;
      ConnectFrom(p, w, Next(p, s).value, Effect(c, s));
    }
  }

  // ---- Success -------------------------------------------------------------

  lemma {:induction false} NoFailuresExactly(w: World, calls: seq<Step>)
    ensures FailuresOf(w, calls) == [] <==> forall i | 0 <= i < |calls| :: CallFailures(w, calls[i]) == []
  {
    hide CallFailures;
    if calls != [] {
      NoFailuresExactly(w, calls[..|calls| - 1]);
    }
  }

  predicate Clean(report: CleanupReport) {
    report.failures == 0 && report.remaining == 0
  }

  lemma CleanCall(w: World, s: Step)
    ensures CallFailures(w, s) == [] <==> w.ok(s) && (s.RuntimeCleanup? ==> Clean(w.report))
  {
  }

  lemma AllPassedConcat(w: World, a: seq<Step>, b: seq<Step>)
    ensures AllPassed(w, a + b) <==> AllPassed(w, a) && AllPassed(w, b)
  {
    if AllPassed(w, a + b) {
      assert forall i | 0 <= i < |a| :: a[i] == (a + b)[i];
      assert forall i | 0 <= i < |b| :: b[i] == (a + b)[|a| + i];
    }
  }

  lemma CleanReleases(w: World, held: set<Step>)
    requires Create in held
    ensures FailuresOf(w, Releases(held)) == [] <==> AllPassed(w, Releases(held)) && Clean(w.report)
  {
    hide CallFailures, FailuresOf, Releases, Times, Clean;
    var calls := Releases(held);
    NoFailuresExactly(w, calls);
    ReleasesInOrder(held);
    forall i | 0 <= i < |calls| ensures CallFailures(w, calls[i]) == [] <==>
        (calls[i] == AllSecrets || w.ok(calls[i])) && (calls[i].RuntimeCleanup? ==> Clean(w.report)) {
      CleanCall(w, calls[i]);
    }
    ReleaseTimes(held, RuntimeCleanup);
    TimesWithin(calls, RuntimeCleanup);
  }

  /** Success is reported exactly when every point that was met was passed, the
      release calls included, and the runtime's cleanup report is clean. */
  lemma SuccessExactly(p: Plan, w: World)
    ensures Run(p, w).outcome.Completed? <==> AllPassed(w, Run(p, w).met) && Clean(w.report)
  {
    hide RunFrom, Releases, FailuresOf, At, AllPassed, Clean;
    LifecycleForward(p, w);
    MetSplits(p, w);
    FirstIsPrimary();
    MetOnce(p, w, ReadClock, NEW);
    var r := RunFrom(p, w, ReadClock, NEW);
    AllPassedConcat(w, r.met, Releases(r.context.held));
    assert EnterCleaning(r.context).held == r.context.held;
    if r.ok {
      NewStarts();
      PrimaryEnds(p, w, ReadClock, NEW);
      AllHeld(r.context);
      CleanReleases(w, r.context.held);
    }
  }

  lemma AllHeld(c: Context)
    requires At(c, CancelExecution)
    ensures Create in c.held
  {
    assert Acquires(Create);
  }
}
