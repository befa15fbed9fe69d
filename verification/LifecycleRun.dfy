/** The orchestrator's methods as written, against the run of `Lifecycle`. */
module LifecycleRun {
  import opened Lifecycle
  import opened LifecycleSafety

  /** Everything awaited, with a record of what was met. */
  class Host {
    const world: World
    var met: seq<Step>

    constructor (world: World)
      ensures this.world == world && met == []
    {
      this.world, met := world, [];
    }

    /** The end of the secret loop, which cannot fail. */
    method Note(s: Step)
      modifies this
      ensures met == old(met) + [s]
    {
      met := met + [s];
    }

    method Await(s: Step) returns (ok: bool)
      modifies this
      ensures met == old(met) + [s] && ok == world.ok(s)
    {
      met := met + [s];
      ok := world.ok(s);
    }
  }

  predicate Stored(s: Step, i: bool, c: bool, t: bool, h: bool, g: bool, e: bool) {
    match s
    case Initialize => i
    case Create => c
    case Start => t
    case Provision => h
    case Capabilities => g
    case Launch => e
    case _ => false
  }

  ghost function HeldSet(i: bool, c: bool, t: bool, h: bool, g: bool, e: bool): (r: set<Step>)
    ensures forall s :: s in r <==> Stored(s, i, c, t, h, g, e)
  {
    set s | s in {Initialize, Create, Start, Provision, Capabilities, Launch} && Stored(s, i, c, t, h, g, e)
  }

  lemma HeldEarly(i: bool, c: bool, t: bool, h: bool, g: bool, e: bool)
    ensures HeldSet(true, c, t, h, g, e) == HeldSet(i, c, t, h, g, e) + {Initialize}
    ensures HeldSet(i, true, t, h, g, e) == HeldSet(i, c, t, h, g, e) + {Create}
    ensures HeldSet(i, c, true, h, g, e) == HeldSet(i, c, t, h, g, e) + {Start}
  {
    hide HeldSet;
  }

  lemma HeldLate(i: bool, c: bool, t: bool, h: bool, g: bool, e: bool)
    ensures HeldSet(i, c, t, true, g, e) == HeldSet(i, c, t, h, g, e) + {Provision}
    ensures HeldSet(i, c, t, h, true, e) == HeldSet(i, c, t, h, g, e) + {Capabilities}
    ensures HeldSet(i, c, t, h, g, true) == HeldSet(i, c, t, h, g, e) + {Launch}
  {
    hide HeldSet;
  }

  class RunContext {
    var state: AgentState
    var states: seq<AgentState>
    var initialized: bool
    var container: bool
    var started: bool
    var channel: bool
    var guest: bool
    var execution: bool

    ghost function View(): (c: Context)
      reads this
    {
      Context(state, states, HeldSet(initialized, container, started, channel, guest, execution), false, false)
    }

    constructor ()
      ensures View() == NEW
    {
      state, states := Planned, [Planned];
      initialized, container, started, channel, guest, execution := false, false, false, false, false, false;
    }

    /** Storing one more resource. */
    lemma Grows()
      ensures var held := View().held;
              && HeldSet(true, container, started, channel, guest, execution) == held + {Initialize}
              && HeldSet(initialized, true, started, channel, guest, execution) == held + {Create}
              && HeldSet(initialized, container, true, channel, guest, execution) == held + {Start}
              && HeldSet(initialized, container, started, true, guest, execution) == held + {Provision}
              && HeldSet(initialized, container, started, channel, true, execution) == held + {Capabilities}
              && HeldSet(initialized, container, started, channel, guest, true) == held + {Launch}
    {
      hide HeldSet;
      HeldEarly(initialized, container, started, channel, guest, execution);
      HeldLate(initialized, container, started, channel, guest, execution);
    }

    method Transition(next: AgentState) returns (ok: bool)
      modifies this`state, this`states
      ensures ok <==> CanTransition(old(state), next)
      ensures ok ==> state == next && states == old(states) + [next]
      ensures !ok ==> state == old(state) && states == old(states)
    {
      ok := CanTransition(state, next);
      if ok {
        state := next;
        states := states + [next];
      }
    }
  }

  // ---- How far a run has come ----------------------------------------------

  /** A run that has met these points, holds this context and meets `s` next ends
      as the whole run does. */
  ghost predicate Reached(p: Plan, w: World, met: seq<Step>, c: Context, s: Step) {
    var ahead := RunFrom(p, w, s, c);
    && At(c, s) && IsPrimary(s)
    && RunFrom(p, w, ReadClock, NEW) == Primary(ahead.context, met + ahead.met, ahead.ok)
  }

  ghost predicate Ended(p: Plan, w: World, met: seq<Step>, c: Context, ok: bool) {
    RunFrom(p, w, ReadClock, NEW) == Primary(c, met, ok)
  }

  lemma Begins(p: Plan, w: World)
    ensures Reached(p, w, [], NEW, ReadClock)
  {
    NewStarts();
    var r := RunFrom(p, w, ReadClock, NEW);
    assert [] + r.met == r.met;
  }

  lemma Passes(p: Plan, w: World, met: seq<Step>, c: Context, s: Step)
    requires Reached(p, w, met, c, s) && (s == AllSecrets || w.ok(s))
    ensures match Next(p, s)
            case Some(t) => Reached(p, w, met + [s], Effect(c, s), t)
            case None => Ended(p, w, met + [s], Effect(c, s), true)
  {
    hide At, Effect, Next, IsPrimary;
    PassingKeeps(p, c, s);
    NextIsPrimary(p, s);
    if Next(p, s).Some? {
      var rest := RunFrom(p, w, Next(p, s).value, Effect(c, s));
      assert met + ([s] + rest.met) == met + [s] + rest.met;
    }
  }

  lemma Fails(p: Plan, w: World, met: seq<Step>, c: Context, s: Step)
    requires Reached(p, w, met, c, s) && s != AllSecrets && !w.ok(s)
    ensures Ended(p, w, met + [s], c, false)
  {
  }

  /** A point that stores nothing leaves the context as it is. */
  lemma PlainEffect(c: Context, s: Step)
    requires At(c, s) && Milestone(s).None? && !Acquires(s)
    ensures Effect(c, s) == c
  {
    NeedsMet(c.held, s);
    hide Milestone, Acquires, Needs;
  }

  /** At every other point the transition is permitted and nothing expected is
      missing. */
  lemma MilestoneEffect(p: Plan, c: Context, s: Step)
    requires At(c, s) && IsPrimary(s) && Milestone(s).Some?
    ensures var a := Milestone(s).value;
            && CanTransition(c.state, a)
            && Effect(c, s) == c.(state := a, states := c.states + [a],
                held := if Acquires(s) then c.held + {s} else c.held)
  {
    NeedsMet(c.held, s);
    StateFollows(p, s);
    hide Milestone, Acquires, Needs, CanTransition, StateAt;
  }

  lemma Reaches(p: Plan, w: World, met: seq<Step>, c: Context, s: Step)
    requires Reached(p, w, met, c, s)
    ensures At(c, s) && IsPrimary(s)
  {
  }

  // ---- The methods ---------------------------------------------------------

  /** Await a point that changes nothing but may fail; after the last one the
      primary run is over. */
  method Meet(ghost p: Plan, host: Host, context: RunContext, s: Step) returns (ok: bool)
    requires Reached(p, host.world, host.met, context.View(), s)
    requires s != AllSecrets && Milestone(s).None? && !Acquires(s)
    modifies host
    ensures host.met == old(host.met) + [s]
    ensures !ok ==> Ended(p, host.world, host.met, context.View(), false)
    ensures ok && Next(p, s).Some? ==> Reached(p, host.world, host.met, context.View(), Next(p, s).value)
    ensures ok && Next(p, s).None? ==> Ended(p, host.world, host.met, context.View(), true)
  {
    hide Reached, Ended, Next, Milestone, Acquires, Effect;
    ghost var c, met := context.View(), host.met;
    Reaches(p, host.world, met, c, s);
    ok := host.Await(s);
    if ok {
      Passes(p, host.world, met, c, s);
      PlainEffect(c, s);
    } else {
      Fails(p, host.world, met, c, s);
    }
  }

  /** Await a point whose success stores something or moves the state; what is
      then to be done to the context. */
  method MeetMilestone(ghost p: Plan, host: Host, context: RunContext, s: Step) returns (ok: bool)
    requires Reached(p, host.world, host.met, context.View(), s)
    requires s != AllSecrets && Milestone(s).Some? && Next(p, s).Some?
    modifies host
    ensures host.met == old(host.met) + [s]
    ensures !ok ==> Ended(p, host.world, host.met, context.View(), false)
    ensures ok ==> Reached(p, host.world, host.met, Effect(context.View(), s), Next(p, s).value)
    ensures var c, a := context.View(), Milestone(s).value;
            && CanTransition(c.state, a)
            && Effect(c, s) == c.(state := a, states := c.states + [a],
                held := if Acquires(s) then c.held + {s} else c.held)
  {
    hide Reached, Ended, Next, Milestone, Acquires, Effect, CanTransition;
    ghost var c, met := context.View(), host.met;
    Reaches(p, host.world, met, c, s);
    MilestoneEffect(p, c, s);
    ok := host.Await(s);
    if ok {
      Passes(p, host.world, met, c, s);
    } else {
      Fails(p, host.world, met, c, s);
    }
  }

  /** A runtime that can do what the plan asks. */
  method PreflightRuntime(ghost p: Plan, host: Host, context: RunContext) returns (ok: bool)
    requires Reached(p, host.world, host.met, context.View(), CheckCancelled)
    modifies host, context
    ensures !ok ==> Ended(p, host.world, host.met, context.View(), false)
    ensures ok ==> Reached(p, host.world, host.met, context.View(), Initialize)
  {
    hide Reached, Ended, Effect, CanTransition, HeldSet;
    ok := Meet(p, host, context, CheckCancelled);
    if !ok { return; }
    ok := Meet(p, host, context, Preflight);
    if !ok { return; }
    ok := MeetMilestone(p, host, context, Compatible);
    if !ok { return; }
    ok := context.Transition(Preflighted);
  }

  /** The runtime's state directory. */
  method InitializeRuntime(ghost p: Plan, host: Host, context: RunContext) returns (ok: bool)
    requires Reached(p, host.world, host.met, context.View(), Initialize)
    modifies host, context
    ensures !ok ==> Ended(p, host.world, host.met, context.View(), false)
    ensures ok ==> Reached(p, host.world, host.met, context.View(), Create)
  {
    hide Reached, Ended, Effect, CanTransition, HeldSet;
    ok := MeetMilestone(p, host, context, Initialize);
    if !ok { return; }
    context.Grows();
    context.initialized := true;
    ok := context.Transition(Initialized);
  }

  /** A container, created but not started. */
  method CreateContainer(ghost p: Plan, host: Host, context: RunContext) returns (ok: bool)
    requires Reached(p, host.world, host.met, context.View(), Create)
    modifies host, context
    ensures !ok ==> Ended(p, host.world, host.met, context.View(), false)
    ensures ok ==> Reached(p, host.world, host.met, context.View(), Start)
  {
    hide Reached, Ended, Effect, CanTransition, HeldSet;
    ok := MeetMilestone(p, host, context, Create);
    if !ok { return; }
    context.Grows();
    context.container := true;
    ok := context.Transition(Created);
  }

  /** The container's start. */
  method StartContainer(ghost p: Plan, host: Host, context: RunContext) returns (ok: bool)
    requires Reached(p, host.world, host.met, context.View(), Start)
    modifies host, context
    ensures !ok ==> Ended(p, host.world, host.met, context.View(), false)
    ensures ok ==> Reached(p, host.world, host.met, context.View(), ResolveBootstrap)
  {
    hide Reached, Ended, Effect, CanTransition, HeldSet;
    ok := MeetMilestone(p, host, context, Start);
    if !ok { return; }
    context.Grows();
    context.started := true;
    ok := context.Transition(Started);
  }

  /** The secret the guest will prove itself with. */
  method PrepareChannel(ghost p: Plan, host: Host, context: RunContext) returns (ok: bool)
    requires Reached(p, host.world, host.met, context.View(), ResolveBootstrap)
    modifies host
    ensures !ok ==> Ended(p, host.world, host.met, context.View(), false)
    ensures ok ==> Reached(p, host.world, host.met, context.View(), Provision)
  {
    hide Reached, Ended, Effect, HeldSet;
    ok := Meet(p, host, context, ResolveBootstrap);
    if !ok { return; }
    ok := Meet(p, host, context, Material);
  }

  /** The control channel. */
  method OpenChannel(ghost p: Plan, host: Host, context: RunContext) returns (ok: bool)
    requires Reached(p, host.world, host.met, context.View(), Provision)
    modifies host, context
    ensures !ok ==> Ended(p, host.world, host.met, context.View(), false)
    ensures ok ==> Reached(p, host.world, host.met, context.View(), AcceptDeadline)
  {
    hide Reached, Ended, Effect, CanTransition, HeldSet;
    ok := MeetMilestone(p, host, context, Provision);
    if !ok { return; }
    context.Grows();
    ok := context.Transition(ChannelProvisioned);
    context.channel := true;
  }

  /** A guest on the channel. */
  method AcceptGuest(ghost p: Plan, host: Host, context: RunContext) returns (ok: bool)
    requires Reached(p, host.world, host.met, context.View(), AcceptDeadline)
    modifies host
    ensures !ok ==> Ended(p, host.world, host.met, context.View(), false)
    ensures ok ==> Reached(p, host.world, host.met, context.View(), Capabilities)
  {
    hide Reached, Ended, Effect, HeldSet;
    ok := Meet(p, host, context, AcceptDeadline);
    if !ok { return; }
    ok := Meet(p, host, context, Accept);
    if !ok { return; }
    ok := Meet(p, host, context, ConnectDeadline);
    if !ok { return; }
    ok := Meet(p, host, context, Connect);
  }

  /** The guest is stored once it offers the required capabilities. */
  method StoreGuest(ghost p: Plan, host: Host, context: RunContext) returns (ok: bool)
    requires Reached(p, host.world, host.met, context.View(), Capabilities)
    modifies host, context
    ensures !ok ==> Ended(p, host.world, host.met, context.View(), false)
    ensures ok ==> Reached(p, host.world, host.met, context.View(), Next(p, Capabilities).value)
  {
    hide Reached, Ended, Effect, CanTransition, HeldSet;
    ok := MeetMilestone(p, host, context, Capabilities);
    if !ok { return; }
    context.Grows();
    context.guest := true;
    ok := context.Transition(GuestReady);
  }

  /** The secret loop. */
  method ResolveSecrets(p: Plan, host: Host, context: RunContext) returns (ok: bool)
    requires Reached(p, host.world, host.met, context.View(), Next(p, Capabilities).value)
    modifies host
    ensures !ok ==> Ended(p, host.world, host.met, context.View(), false)
    ensures ok ==> Reached(p, host.world, host.met, context.View(), AllSecrets)
  {
    hide Reached, Ended, Effect, HeldSet;
    for i := 0 to p.secrets
      invariant Reached(p, host.world, host.met, context.View(), if i < p.secrets then ResolveSecret(i) else AllSecrets)
    {
      ok := Meet(p, host, context, ResolveSecret(i));
      if !ok { return; }
    }
    ok := true;
  }

  /** The state after the secret loop. */
  method SecretsDone(ghost p: Plan, host: Host, context: RunContext)
    requires Reached(p, host.world, host.met, context.View(), AllSecrets)
    modifies host, context
    ensures Reached(p, host.world, host.met, context.View(), Launch)
  {
    hide Reached, Ended, Effect, CanTransition, HeldSet;
    ghost var c, met := context.View(), host.met;
    Reaches(p, host.world, met, c, AllSecrets);
    MilestoneEffect(p, c, AllSecrets);
    Passes(p, host.world, met, c, AllSecrets);
    var _ := context.Transition(SecretsResolved);
    host.Note(AllSecrets);
  }

  method LaunchWorkload(ghost p: Plan, host: Host, context: RunContext) returns (ok: bool)
    requires Reached(p, host.world, host.met, context.View(), Launch)
    modifies host, context
    ensures !ok ==> Ended(p, host.world, host.met, context.View(), false)
    ensures ok ==> Reached(p, host.world, host.met, context.View(), Monitor)
  {
    hide Reached, Ended, Effect, CanTransition, HeldSet;
    ok := MeetMilestone(p, host, context, Launch);
    if !ok { return; }
    context.Grows();
    context.execution := true;
    ok := context.Transition(Running);
  }

  /** Watch the workload to its end, then fetch what the plan asks for. */
  method Finish(p: Plan, host: Host, context: RunContext) returns (ok: bool)
    requires Reached(p, host.world, host.met, context.View(), Monitor)
    modifies host
    ensures Ended(p, host.world, host.met, context.View(), ok)
  {
    hide Reached, Ended, Effect;
    ok := Meet(p, host, context, Monitor);
    if !ok { return; }
    if p.networkReport {
      ok := Meet(p, host, context, NetworkReport);
      if !ok { return; }
    }
    if p.syscallTracing {
      ok := Meet(p, host, context, SyscallReport);
      if !ok { return; }
    }
    if p.safeOutputs {
      ok := Meet(p, host, context, SafeOutputs);
    }
  }

  /** `run_primary`. */
  method RunPrimary(p: Plan, host: Host, context: RunContext) returns (ok: bool)
    requires Reached(p, host.world, host.met, context.View(), CheckCancelled)
    modifies host, context
    ensures Ended(p, host.world, host.met, context.View(), ok)
  {
    hide Reached, Ended;
    ok := PreflightRuntime(p, host, context);
    if !ok { return; }
    ok := InitializeRuntime(p, host, context);
    if !ok { return; }
    ok := CreateContainer(p, host, context);
    if !ok { return; }
    ok := StartContainer(p, host, context);
    if !ok { return; }
    ok := PrepareChannel(p, host, context);
    if !ok { return; }
    ok := OpenChannel(p, host, context);
    if !ok { return; }
    ok := AcceptGuest(p, host, context);
    if !ok { return; }
    ok := StoreGuest(p, host, context);
    if !ok { return; }
    ok := ResolveSecrets(p, host, context);
    if !ok { return; }
    SecretsDone(p, host, context);
    ok := LaunchWorkload(p, host, context);
    if !ok { return; }
    ok := Finish(p, host, context);
  }

  /** One release call, with its failures appended. */
  method Release(host: Host, s: Step, failures: seq<Failure>) returns (r: seq<Failure>)
    requires s != AllSecrets
    modifies host
    ensures host.met == old(host.met) + [s] && r == failures + CallFailures(host.world, s)
  {
    var ok := host.Await(s);
    if !ok {
      return failures + [CallFailed(s)];
    }
    r := failures;
    if s.RuntimeCleanup? {
      for i := 0 to host.world.report.failures
        invariant r == failures + Repeat(i)
      {
        r := r + [ReportedFailure];
      }
      if host.world.report.remaining > 0 && host.world.report.failures == 0 {
        r := r + [StepsRemain];
      }
    }
  }

  lemma FailuresAppend(w: World, calls: seq<Step>, s: Step)
    ensures FailuresOf(w, calls + [s]) == FailuresOf(w, calls) + CallFailures(w, s)
  {
    assert (calls + [s])[..|calls|] == calls;
  }

  /** A release call that is only made when its resource is stored; `made` are
      the release calls before it. */
  method ReleaseWhen(host: Host, stored: bool, s: Step, failures: seq<Failure>, ghost start: seq<Step>,
      ghost made: seq<Step>)
      returns (r: seq<Failure>)
    requires s != AllSecrets && host.met == start + made && failures == FailuresOf(host.world, made)
    modifies host
    ensures host.met == start + (made + When(stored, s)) && r == FailuresOf(host.world, made + When(stored, s))
  {
    hide CallFailures;
    r := failures;
    if stored {
      r := Release(host, s, failures);
      FailuresAppend(host.world, made, s);
    } else {
      assert made + [] == made;
    }
  }

  lemma RightToLeft(a: seq<Step>, b: seq<Step>, c: seq<Step>, d: seq<Step>, e: seq<Step>)
    ensures a + (b + (c + (d + e))) == a + b + c + d + e
  {
  }

  /** The release calls for what is stored. */
  method ReleaseAll(host: Host, execution: bool, guest: bool, channel: bool, started: bool, container: bool)
      returns (failures: seq<Failure>)
    modifies host
    ensures var calls := When(execution, CancelExecution) + (When(guest, GuestCleanup) +
                         (When(channel, ChannelCleanup) + (When(started, Stop) + When(container, RuntimeCleanup))));
            host.met == old(host.met) + calls && failures == FailuresOf(host.world, calls)
  {
    hide CallFailures, FailuresOf, When;
    ghost var start := host.met;
    NoFailures(host.world);
    assert start + [] == start;
    failures := ReleaseWhen(host, execution, CancelExecution, [], start, []);
    ghost var e := When(execution, CancelExecution);
    assert [] + e == e;
    failures := ReleaseWhen(host, guest, GuestCleanup, failures, start, e);
    ghost var g := When(guest, GuestCleanup);
    failures := ReleaseWhen(host, channel, ChannelCleanup, failures, start, e + g);
    ghost var h := When(channel, ChannelCleanup);
    failures := ReleaseWhen(host, started, Stop, failures, start, e + g + h);
    ghost var t := When(started, Stop);
    failures := ReleaseWhen(host, container, RuntimeCleanup, failures, start, e + g + h + t);
    RightToLeft(e, g, h, t, When(container, RuntimeCleanup));
  }

  /** `cleanup`: enter `Cleaning` where that is permitted, then release. */
  method Cleanup(host: Host, context: RunContext) returns (failures: seq<Failure>)
    modifies host, context
    ensures context.View() == EnterCleaning(old(context.View()))
    ensures host.met == old(host.met) + Releases(context.View().held)
    ensures failures == FailuresOf(host.world, Releases(context.View().held))
  {
    hide FailuresOf, HeldSet, When;
    if context.state != Cleaning && CanTransition(context.state, Cleaning) {
      var _ := context.Transition(Cleaning);
    }
    HeldMembers(context);
    failures := ReleaseAll(host, context.execution, context.guest, context.channel, context.started, context.container);
  }

  lemma NoFailures(w: World)
    ensures FailuresOf(w, []) == []
  {
  }

  lemma HeldMembers(context: RunContext)
    ensures var held := context.View().held;
            && (Launch in held <==> context.execution) && (Capabilities in held <==> context.guest)
            && (Provision in held <==> context.channel) && (Start in held <==> context.started)
            && (Create in held <==> context.container)
  {
  }

  /** A run refused before it has a context has nothing to clean up. */
  lemma RefusedEarly(p: Plan, w: World, met: seq<Step>)
    requires Ended(p, w, met, NEW, false)
    ensures Run(p, w) == Report(NEW, met, [], PrimaryFailed)
  {
    hide RunFrom;
    assert Releases({}) == [];
    NoFailures(w);
    assert met + [] == met;
  }

  lemma Waived(p: Plan, w: World, met: seq<Step>, s: Step)
    requires Reached(p, w, met, NEW, s) && (s.ReadClock? || s.Boundary?)
    ensures if w.ok(s) then Reached(p, w, met + [s], NEW, Next(p, s).value) else Ended(p, w, met + [s], NEW, false)
  {
    hide Reached, Ended;
    Reaches(p, w, met, NEW, s);
    PlainEffect(NEW, s);
    if w.ok(s) {
      Passes(p, w, met, NEW, s);
    } else {
      Fails(p, w, met, NEW, s);
    }
  }

  /** `run`: clock, boundary, primary run, cleanup, verdict. */
  method RunAgent(p: Plan, host: Host) returns (outcome: Outcome, failures: seq<Failure>)
    requires host.met == []
    modifies host
    ensures var r := Run(p, host.world); outcome == r.outcome && failures == r.failures && host.met == r.met
  {
    Begins(p, host.world);
    hide Reached, Ended;
    Waived(p, host.world, [], ReadClock);
    var ok := host.Await(ReadClock);
    if !ok {
      RefusedEarly(p, host.world, host.met);
      return PrimaryFailed, [];
    }
    Waived(p, host.world, host.met, Boundary);
    ok := host.Await(Boundary);
    if !ok {
      RefusedEarly(p, host.world, host.met);
      return PrimaryFailed, [];
    }
    outcome, failures := RunWithContext(p, host);
  }

  /** The rest of `run`, from the point where the context is made. */
  method RunWithContext(p: Plan, host: Host) returns (outcome: Outcome, failures: seq<Failure>)
    requires Reached(p, host.world, host.met, NEW, CheckCancelled)
    modifies host
    ensures var r := Run(p, host.world); outcome == r.outcome && failures == r.failures && host.met == r.met
  {
    hide RunFrom, Releases, FailuresOf, HeldSet, Reached;
    var context := new RunContext();
    var ok := RunPrimary(p, host, context);
    failures := Cleanup(host, context);
    if !ok {
      return PrimaryFailed, failures;
    }
    if failures != [] {
      return CleanupAfterSuccess, failures;
    }
    var moved := context.Transition(AgentState.Completed);
    if !moved {
      return Refused, failures;
    }
    return Outcome.Completed(context.states), failures;
  }
}
