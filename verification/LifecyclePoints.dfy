/** The points of a run, written out: which ones a plan meets, in which order, and
    which states a finished run has been through. */
module LifecyclePoints {
  import opened Prelude
  import opened Lifecycle
  import opened LifecycleSafety

  const OPENING: seq<Step> := [
    ReadClock, Boundary, CheckCancelled, Preflight, Compatible, Initialize, Create, Start, ResolveBootstrap, Material,
    Provision, AcceptDeadline, Accept, ConnectDeadline, Connect, Capabilities
  ]

  function Secrets(n: nat): (r: seq<Step>)
    ensures |r| == n && forall i | 0 <= i < n :: r[i] == ResolveSecret(i)
  {
    seq(n, i requires 0 <= i < n => ResolveSecret(i))
  }

  /** The reports the plan asks for, after the workload has ended. */
  function Closing(p: Plan): (r: seq<Step>) {
    [AllSecrets, Launch, Monitor] + (When(p.networkReport, NetworkReport) +
    (When(p.syscallTracing, SyscallReport) + When(p.safeOutputs, SafeOutputs)))
  }

  /** Every point of the plan, in order. */
  function Points(p: Plan): (r: seq<Step>) {
    OPENING + Secrets(p.secrets) + Closing(p)
  }

  predicate Passes(w: World, s: Step) {
    s == AllSecrets || w.ok(s)
  }

  // ---- Each point leads to the next ----------------------------------------

  lemma OpeningLeads(p: Plan, k: nat)
    requires k + 1 < |OPENING|
    ensures Next(p, OPENING[k]) == Some(OPENING[k + 1])
  {
  }

  lemma ClosingLeads(p: Plan, k: nat)
    requires k < |Closing(p)|
    ensures Next(p, Closing(p)[k]) == if k + 1 < |Closing(p)| then Some(Closing(p)[k + 1]) else None
  {
  }

  lemma Parts(p: Plan, k: nat)
    requires k < |Points(p)|
    ensures Points(p)[k] ==
            if k < 16 then OPENING[k]
            else if k < 16 + p.secrets then ResolveSecret(k - 16)
            else Closing(p)[k - 16 - p.secrets]
    ensures |Points(p)| == 16 + p.secrets + |Closing(p)|
  {
  }

  lemma PointLeads(p: Plan, k: nat)
    requires k < |Points(p)|
    ensures Next(p, Points(p)[k]) == if k + 1 < |Points(p)| then Some(Points(p)[k + 1]) else None
  {
    Parts(p, k);
    if k + 1 < |Points(p)| {
      Parts(p, k + 1);
    }
    assert Closing(p)[0] == AllSecrets && OPENING[15] == Capabilities;
    hide Points;
    if k + 1 < 16 {
      OpeningLeads(p, k);
    } else if k >= 16 + p.secrets {
      ClosingLeads(p, k - 16 - p.secrets);
    }
  }

  // ---- The points met ------------------------------------------------------

  /** These are the points from `k` on, up to and including the first that fails, or
      all of them. */
  ghost predicate UpToFailure(p: Plan, w: World, k: nat, met: seq<Step>, ok: bool) {
    var all := Points(p);
    && met != [] && k + |met| <= |all| && met == all[k..k + |met|]
    && (forall i | 0 <= i < |met| - 1 :: Passes(w, met[i]))
    && (ok <==> Passes(w, met[|met| - 1]))
    && (ok ==> k + |met| == |all|)
  }

  lemma FailsHere(p: Plan, w: World, k: nat, s: Step)
    requires k < |Points(p)| && s == Points(p)[k]
    requires !Passes(w, s) || k + 1 == |Points(p)|
    ensures UpToFailure(p, w, k, [s], Passes(w, s))
  {
  }

  lemma GoesOn(p: Plan, w: World, k: nat, s: Step, rest: seq<Step>, ok: bool)
    requires k + 1 < |Points(p)| && s == Points(p)[k] && Passes(w, s)
    requires UpToFailure(p, w, k + 1, rest, ok)
    ensures UpToFailure(p, w, k, [s] + rest, ok)
  {
    hide Points, Passes;
    var met, all := [s] + rest, Points(p);
    assert all[k..k + |met|] == [all[k]] + all[k + 1..k + 1 + |rest|];
    forall i | 0 <= i < |met| - 1 ensures Passes(w, met[i]) {
      if i > 0 {
        assert met[i] == rest[i - 1];
      }
    }
    assert met[|met| - 1] == rest[|rest| - 1];
  }

  lemma {:induction false} MetFrom(p: Plan, w: World, k: nat, c: Context)
    requires k < |Points(p)|
    ensures var r := RunFrom(p, w, Points(p)[k], c); UpToFailure(p, w, k, r.met, r.ok)
    decreases |Points(p)| - k
  {
    hide Points, UpToFailure, Next, Effect;
    var s := Points(p)[k];
    PointLeads(p, k);
    if !Passes(w, s) || k + 1 == |Points(p)| {
      FailsHere(p, w, k, s);
    } else {
      MetFrom(p, w, k + 1, Effect(c, s));
      var rest := RunFrom(p, w, Points(p)[k + 1], Effect(c, s));
      GoesOn(p, w, k, s, rest.met, rest.ok);
    }
  }

  /** The primary run of a plan meets exactly its points, in order, up to and including
      the first that fails; every one when it succeeds. Every secret is resolved before
      the launch, and each report is fetched exactly when the plan asks for it. */
  lemma PointsMet(p: Plan, w: World)
    ensures var r := RunFrom(p, w, ReadClock, NEW);
            UpToFailure(p, w, 0, r.met, r.ok) && (r.ok ==> r.met == Points(p))
  {
    hide RunFrom;
    Parts(p, 0);
    MetFrom(p, w, 0, NEW);
    var r := RunFrom(p, w, ReadClock, NEW);
    assert r.ok ==> Points(p)[0..|Points(p)|] == Points(p);
  }

  // ---- The states of a finished run ----------------------------------------

  const STATES: seq<AgentState> := [
    Planned, Preflighted, Initialized, Created, Started, ChannelProvisioned, GuestReady, SecretsResolved,
    AgentState.Running
  ]

  /** The only way to a state of the primary run is through all before it. */
  lemma {:induction false} OneWay(state: AgentState, states: seq<AgentState>)
    requires Recorded(state, states) && Ordinal(state) <= 8
    ensures states == STATES[..Ordinal(state) + 1]
    decreases |states|
  {
    if |states| == 1 {
      assert states == [Planned] && STATES[..1] == [Planned];
    } else {
      var init, before := states[..|states| - 1], states[|states| - 2];
      assert ForwardAt(states, |states| - 2);
      assert before in states && !Unused(state) by { assert state in states; }
      forall i: nat | i + 1 < |init| ensures ForwardAt(init, i) {
        assert ForwardAt(states, i);
      }
      assert Recorded(before, init);
      OneWay(before, init);
      assert Ordinal(state) == Ordinal(before) + 1;
      assert STATES[..Ordinal(state) + 1] == STATES[..Ordinal(before) + 1] + [STATES[Ordinal(state)]];
      assert STATES[Ordinal(state)] == state;
      assert states == init + [state];
    }
  }

  /** A run that reports success has been through every state, each once and in order. */
  lemma CompletedStates(p: Plan, w: World)
    requires Run(p, w).outcome.Completed?
    ensures Run(p, w).outcome.states == STATES + [Cleaning, AgentState.Completed]
  {
    hide RunFrom, Releases, FailuresOf, At, Recorded;
    NewStarts();
    PrimaryEnds(p, w, ReadClock, NEW);
    var r := RunFrom(p, w, ReadClock, NEW);
    AtRecorded(r.context, CancelExecution);
    OneWay(r.context.state, r.context.states);
    assert STATES[..9] == STATES;
  }

  /** What a run reports: failure of its primary part exactly when some point of the
      plan that it met failed; trouble in cleanup alone exactly when every point of the
      plan passed and some release did not, or the runtime's own report is not clean. */
  lemma OutcomeExactly(p: Plan, w: World)
    ensures var all := Points(p);
            var passed := forall i | 0 <= i < |all| :: Passes(w, all[i]);
            && (Run(p, w).outcome.PrimaryFailed? <==> !passed)
            && (Run(p, w).outcome.CleanupAfterSuccess? <==> passed && Run(p, w).failures != [])
            && (Run(p, w).outcome.Completed? <==> passed && Run(p, w).failures == [])
  {
    PointsMet(p, w);
    LifecycleForward(p, w);
    hide RunFrom, Releases, FailuresOf, Passes, Points;
    var r, all := RunFrom(p, w, ReadClock, NEW), Points(p);
    if r.ok {
      assert forall i | 0 <= i < |all| - 1 :: Passes(w, all[i]);
    } else {
      var last := |r.met| - 1;
      assert r.met[last] == all[last];
    }
  }
}
