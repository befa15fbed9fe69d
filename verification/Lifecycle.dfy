/** One agent run: acquire step by step, leave at the first failure, release
    what was acquired. */
module Lifecycle {
  import opened Prelude

  datatype AgentState =
    | Planned | Preflighted | Initialized | Created | Started | ChannelProvisioned | GuestReady
    | SecretsResolved | Running | Stopping | Cleaning | Completed | Failed

  predicate CanTransition(a: AgentState, b: AgentState) {
    match a
    case Planned => b.Preflighted? || b.Failed?
    case Preflighted => b.Initialized? || b.Failed?
    case Initialized => b.Created? || b.Cleaning? || b.Failed?
    case Created => b.Started? || b.Cleaning? || b.Failed?
    case Started => b.ChannelProvisioned? || b.Stopping? || b.Cleaning? || b.Failed?
    case ChannelProvisioned => b.GuestReady? || b.Stopping? || b.Cleaning? || b.Failed?
    case GuestReady => b.SecretsResolved? || b.Stopping? || b.Cleaning? || b.Failed?
    case SecretsResolved => b.Running? || b.Stopping? || b.Cleaning? || b.Failed?
    case Running => b.Stopping? || b.Cleaning? || b.Failed?
    case Stopping => b.Cleaning? || b.Failed?
    case Cleaning => b.Completed? || b.Failed?
    case Completed => false
    case Failed => false
  }

  /** The points where a run can fail, in the order the code meets them, and the
      five release calls. `AllSecrets` is the end of the secret loop. */
  datatype Step =
    | ReadClock | Boundary | CheckCancelled | Preflight | Compatible | Initialize | Create | Start
    | ResolveBootstrap | Material | Provision | AcceptDeadline | Accept | ConnectDeadline | Connect | Capabilities
    | ResolveSecret(index: nat) | AllSecrets | Launch | Monitor | NetworkReport | SyscallReport | SafeOutputs
    | CancelExecution | GuestCleanup | ChannelCleanup | Stop | RuntimeCleanup

  datatype Plan = Plan(secrets: nat, networkReport: bool, syscallTracing: bool, safeOutputs: bool)

  /** What the runtime reports about its own cleanup when that call returns. */
  datatype CleanupReport = CleanupReport(failures: nat, remaining: nat)

  /** Everything outside: which points succeed, and the cleanup report. */
  datatype World = World(ok: Step -> bool, report: CleanupReport)

  /** `RunContext`: `held` names the points whose resources are stored, and
      `refused` and `broken` record a refused transition and a failed `expect`. */
  datatype Context = Context(
    state: AgentState,
    states: seq<AgentState>,
    held: set<Step>,
    refused: bool,
    broken: bool)

  const NEW := Context(Planned, [Planned], {}, false, false)

  /** `transition`. */
  function Advance(c: Context, next: AgentState): (r: Context) {
    if CanTransition(c.state, next) then c.(state := next, states := c.states + [next]) else c.(refused := true)
  }

  /** The points that store something in the context. */
  predicate Acquires(s: Step) {
    s.Initialize? || s.Create? || s.Start? || s.Provision? || s.Capabilities? || s.Launch?
  }

  /** What the code expects to find stored when it gets to a point. */
  function Needs(s: Step): (r: set<Step>) {
    match s
    case Accept => {Provision}
    case Launch => {Capabilities}
    case Monitor => {Launch}
    case NetworkReport => {Launch}
    case SyscallReport => {Launch}
    case SafeOutputs => {Launch}
    case _ => {}
  }

  function Milestone(s: Step): (r: Option<AgentState>) {
    match s
    case Compatible => Some(Preflighted)
    case Initialize => Some(Initialized)
    case Create => Some(Created)
    case Start => Some(Started)
    case Provision => Some(ChannelProvisioned)
    case Capabilities => Some(GuestReady)
    case AllSecrets => Some(SecretsResolved)
    case Launch => Some(Running)
    case _ => None
  }

  function Store(c: Context, s: Step): (r: Context) {
    c.(held := if Acquires(s) then c.held + {s} else c.held, broken := c.broken || !(Needs(s) <= c.held))
  }

  /** What the code does to its context once a point is passed. */
  function Effect(c: Context, s: Step): (r: Context) {
    var stored := Store(c, s);
    match Milestone(s)
    case None => stored
    case Some(a) => Advance(stored, a)
  }

  /** The point after one that was passed; `None` ends the primary run. */
  function Next(p: Plan, s: Step): (r: Option<Step>) {
    match s
    case ReadClock => Some(Boundary)
    case Boundary => Some(CheckCancelled)
    case CheckCancelled => Some(Preflight)
    case Preflight => Some(Compatible)
    case Compatible => Some(Initialize)
    case Initialize => Some(Create)
    case Create => Some(Start)
    case Start => Some(ResolveBootstrap)
    case ResolveBootstrap => Some(Material)
    case Material => Some(Provision)
    case Provision => Some(AcceptDeadline)
    case AcceptDeadline => Some(Accept)
    case Accept => Some(ConnectDeadline)
    case ConnectDeadline => Some(Connect)
    case Connect => Some(Capabilities)
    case Capabilities => Some(if p.secrets > 0 then ResolveSecret(0) else AllSecrets)
    case ResolveSecret(i) => Some(if i + 1 < p.secrets then ResolveSecret(i + 1) else AllSecrets)
    case AllSecrets => Some(Launch)
    case Launch => Some(Monitor)
    case Monitor => if p.networkReport then Some(NetworkReport) else AfterNetwork(p)
    case NetworkReport => AfterNetwork(p)
    case SyscallReport => AfterSyscall(p)
    case _ => None
  }

  function AfterNetwork(p: Plan): (r: Option<Step>) {
    if p.syscallTracing then Some(SyscallReport) else AfterSyscall(p)
  }

  function AfterSyscall(p: Plan): (r: Option<Step>) {
    if p.safeOutputs then Some(SafeOutputs) else None
  }

  /** How far the code has come. */
  function Rank(s: Step): (n: nat) {
    match s
    case ReadClock => 0
    case Boundary => 1
    case CheckCancelled => 2
    case Preflight => 3
    case Compatible => 4
    case Initialize => 5
    case Create => 6
    case Start => 7
    case ResolveBootstrap => 8
    case Material => 9
    case Provision => 10
    case AcceptDeadline => 11
    case Accept => 12
    case ConnectDeadline => 13
    case Connect => 14
    case Capabilities => 15
    case ResolveSecret(_) => 16
    case AllSecrets => 17
    case Launch => 18
    case Monitor => 19
    case NetworkReport => 20
    case SyscallReport => 21
    case SafeOutputs => 22
    case _ => 23
  }

  function Left(p: Plan, s: Step): (n: nat) {
    var secrets :=
      if Rank(s) < 16 then p.secrets
      else if s.ResolveSecret? && s.index < p.secrets then p.secrets - s.index
      else 0;
    24 - Rank(s) + secrets
  }

  lemma NextIsCloser(p: Plan, s: Step)
    ensures Next(p, s).Some? ==> Left(p, Next(p, s).value) < Left(p, s)
  {
  }

  /** The end of a primary run: its context, the points met in order, whether all
      were passed. */
  datatype Primary = Primary(context: Context, met: seq<Step>, ok: bool)

  /** The run from one point on. */
  function RunFrom(p: Plan, w: World, s: Step, c: Context): (r: Primary)
    decreases Left(p, s)
  {
    if s != AllSecrets && !w.ok(s) then Primary(c, [s], false)
    else
      var after := Effect(c, s);
      match Next(p, s)
      case None => Primary(after, [s], true)
      case Some(t) =>
        NextIsCloser(p, s);
        var rest := RunFrom(p, w, t, after);
        rest.(met := [s] + rest.met)
  }

  // ---- Cleanup -------------------------------------------------------------

  function EnterCleaning(c: Context): (r: Context) {
    if !c.state.Cleaning? && CanTransition(c.state, Cleaning) then Advance(c, Cleaning) else c
  }

  function When(condition: bool, s: Step): (r: seq<Step>) {
    if condition then [s] else []
  }

  /** The release calls, in order. */
  function Releases(held: set<Step>): (r: seq<Step>) {
    When(Launch in held, CancelExecution) + (When(Capabilities in held, GuestCleanup) +
    (When(Provision in held, ChannelCleanup) + (When(Start in held, Stop) + When(Create in held, RuntimeCleanup))))
  }

  datatype Failure = CallFailed(step: Step) | ReportedFailure | StepsRemain

  function Repeat(n: nat): (r: seq<Failure>)
    ensures |r| == n
  {
    if n == 0 then [] else Repeat(n - 1) + [ReportedFailure]
  }

  function ReportFailures(report: CleanupReport): (r: seq<Failure>) {
    Repeat(report.failures) + (if report.remaining > 0 && report.failures == 0 then [StepsRemain] else [])
  }

  function CallFailures(w: World, s: Step): (r: seq<Failure>) {
    if !w.ok(s) then [CallFailed(s)] else if s.RuntimeCleanup? then ReportFailures(w.report) else []
  }

  function FailuresOf(w: World, calls: seq<Step>): (r: seq<Failure>) {
    if calls == [] then [] else FailuresOf(w, calls[..|calls| - 1]) + CallFailures(w, calls[|calls| - 1])
  }

  datatype Outcome = Completed(states: seq<AgentState>) | CleanupAfterSuccess | Refused | PrimaryFailed

  /** A whole run: the context it leaves, everything it met, cleanup failures,
      and what it reports. */
  datatype Report = Report(context: Context, met: seq<Step>, failures: seq<Failure>, outcome: Outcome)

  function Run(p: Plan, w: World): (r: Report) {
    var primary := RunFrom(p, w, ReadClock, NEW);
    var cleaning := EnterCleaning(primary.context);
    var releases := Releases(cleaning.held);
    var failures := FailuresOf(w, releases);
    var met := primary.met + releases;
    if !primary.ok then Report(cleaning, met, failures, PrimaryFailed)
    else if failures != [] then Report(cleaning, met, failures, CleanupAfterSuccess)
    else
      var done := Advance(cleaning, AgentState.Completed);
      Report(done, met, failures, if done.refused then Refused else Outcome.Completed(done.states))
  }
}
