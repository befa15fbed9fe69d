/** What holds of a run's history as it grows: one event at a time, and one answer
    to a request at most. */
module PinTimeline {
  import opened Address
  import opened AuthorizationCache
  import opened DnsBudget
  import opened Resolution
  import opened PinProtocol
  import Domain

  /** A request that has its answer, or will never ask for one. */
  predicate Past(t: Task) {
    || t.DnsAnswered? || t.DnsPinning? || t.ConnAnswered? || t.ConnPinning? || t.ConnReady? || t.ConnChosen?
    || t.ConnDialing? || t.Finished?
  }

  ghost predicate IsPast(tasks: map<nat, Task>, id: nat) {
    id in tasks && Past(tasks[id])
  }

  /** At most one event more, no request goes back, and an answer goes to a request
      that had none. */
  ghost predicate Follows(s: State, t: State) {
    && (t.history == s.history || (|t.history| == |s.history| + 1 && s.history <= t.history))
    && (forall id | IsPast(s.tasks, id) :: IsPast(t.tasks, id))
    && (|t.history| > |s.history| && t.history[|s.history|].Answered? ==>
          var id := t.history[|s.history|].owner; !IsPast(s.tasks, id) && IsPast(t.tasks, id))
  }

  /** Nothing happens, or one request moves, with an event or without. */
  ghost predicate Moves(s: State, t: State, id: nat) {
    || (t.history == s.history && t.tasks == s.tasks)
    || (&& id in t.tasks && t.tasks == s.tasks[id := t.tasks[id]]
        && (IsPast(s.tasks, id) ==> Past(t.tasks[id]))
        && (|| t.history == s.history
            || (&& |t.history| == |s.history| + 1 && s.history <= t.history
                && var e := t.history[|s.history|];
                   e.Answered? ==> e.owner == id && !IsPast(s.tasks, id) && Past(t.tasks[id]))))
  }

  lemma MovesFollows(s: State, t: State, id: nat)
    requires Moves(s, t, id)
    ensures Follows(s, t)
  {
  }

  lemma DnsAskingFollows(c: Config, s: State, step: Step)
    requires c.capacity > 0 && (step.StartDns? || step.AdmitDns? || step.AnswerDns?)
    ensures Follows(s, Apply(c, s, step))
  {
    hide Follows, LastVerdict, NameAllowed, Domain.NormalizeDomain, DnsValidate, ConnectValidate, HopsAllowed, Lookup,
      Live, Authorize, Sorted, Elements, Decided;
    MovesFollows(s, Apply(c, s, step), step.id);
  }

  lemma DnsPinnedFollows(c: Config, s: State, step: Step)
    requires c.capacity > 0 && (step.CheckDns? || step.PinDns? || step.ReplyDns?)
    ensures Follows(s, Apply(c, s, step))
  {
    hide Follows, LastVerdict, NameAllowed, Domain.NormalizeDomain, DnsValidate, ConnectValidate, HopsAllowed, Lookup,
      Live, Authorize, Sorted, Elements, Decided;
    MovesFollows(s, Apply(c, s, step), step.id);
  }

  lemma ConnectOpeningFollows(c: Config, s: State, step: Step)
    requires c.capacity > 0 && (step.StartConnect? || step.LookUp? || step.UseDirect? || step.UseCached?)
    ensures Follows(s, Apply(c, s, step))
  {
    hide Follows, LastVerdict, NameAllowed, Domain.NormalizeDomain, DnsValidate, ConnectValidate, HopsAllowed, Lookup,
      Live, Authorize, Sorted, Elements, Decided;
    MovesFollows(s, Apply(c, s, step), step.id);
  }

  lemma ConnectAskingFollows(c: Config, s: State, step: Step)
    requires c.capacity > 0 && (step.AdmitConnect? || step.AnswerConnect? || step.FailConnect?)
    ensures Follows(s, Apply(c, s, step))
  {
    hide Follows, LastVerdict, NameAllowed, Domain.NormalizeDomain, DnsValidate, ConnectValidate, HopsAllowed, Lookup,
      Live, Authorize, Sorted, Elements, Decided;
    MovesFollows(s, Apply(c, s, step), step.id);
  }

  lemma ConnectPinnedFollows(c: Config, s: State, step: Step)
    requires c.capacity > 0 && (step.CheckConnect? || step.PinConnect? || step.FinishPins?)
    ensures Follows(s, Apply(c, s, step))
  {
    hide Follows, LastVerdict, NameAllowed, Domain.NormalizeDomain, DnsValidate, ConnectValidate, HopsAllowed, Lookup,
      Live, Authorize, Sorted, Elements, Decided;
    MovesFollows(s, Apply(c, s, step), step.id);
  }

  lemma ConnectDialedFollows(c: Config, s: State, step: Step)
    requires c.capacity > 0 && (step.Choose? || step.Decide? || step.Dialed? || step.Stop?)
    ensures Follows(s, Apply(c, s, step))
  {
    hide Follows, LastVerdict, NameAllowed, Domain.NormalizeDomain, DnsValidate, ConnectValidate, HopsAllowed, Lookup,
      Live, Authorize, Sorted, Elements, Decided;
    MovesFollows(s, Apply(c, s, step), step.id);
  }

  lemma StepFollows(c: Config, s: State, step: Step)
    requires c.capacity > 0
    ensures Follows(s, Apply(c, s, step))
  {
    if step.StartDns? || step.AdmitDns? || step.AnswerDns? {
      DnsAskingFollows(c, s, step);
    } else if step.CheckDns? || step.PinDns? || step.ReplyDns? {
      DnsPinnedFollows(c, s, step);
    } else if step.StartConnect? || step.LookUp? || step.UseDirect? || step.UseCached? {
      ConnectOpeningFollows(c, s, step);
    } else if step.AdmitConnect? || step.AnswerConnect? || step.FailConnect? {
      ConnectAskingFollows(c, s, step);
    } else if step.CheckConnect? || step.PinConnect? || step.FinishPins? {
      ConnectPinnedFollows(c, s, step);
    } else if step.Choose? || step.Decide? || step.Dialed? || step.Stop? {
      ConnectDialedFollows(c, s, step);
    } else {
      MovesFollows(s, Apply(c, s, step), 0);
    }
    hide Follows;
  }

  // ---- Histories only grow -------------------------------------------------

  /** The moment an event was recorded: after these steps the history ends with it. */
  lemma {:induction false} Moment(c: Config, steps: seq<Step>, i: nat) returns (n: nat)
    requires c.capacity > 0 && i < |Run(c, steps).history|
    ensures n <= |steps| && Run(c, steps[..n]).history == Run(c, steps).history[..i + 1]
  {
    hide Apply;
    var front := steps[..|steps| - 1];
    StepFollows(c, Run(c, front), steps[|steps| - 1]);
    var h := Run(c, steps).history;
    if i < |Run(c, front).history| {
      n := Moment(c, front, i);
      assert front[..n] == steps[..n];
      assert Run(c, front).history[..i + 1] == h[..i + 1];
    } else {
      n := |steps|;
      assert steps[..n] == steps && h[..i + 1] == h;
    }
  }

  // ---- One answer to a request ---------------------------------------------

  ghost predicate AnsweredOnce(s: State) {
    && (forall i: nat | i < |s.history| && s.history[i].Answered? :: IsPast(s.tasks, s.history[i].owner))
    && OwnAnswers(s.history)
  }

  /** No two answers belong to one request. */
  ghost predicate OwnAnswers(h: seq<Event>) {
    forall i: nat, j: nat | i < j < |h| && h[i].Answered? && h[j].Answered? :: h[i].owner != h[j].owner
  }

  lemma FollowingAnswersOnce(s: State, t: State)
    requires AnsweredOnce(s) && Follows(s, t)
    ensures AnsweredOnce(t)
  {
    hide IsPast;
    forall i: nat | i < |t.history| && t.history[i].Answered? ensures IsPast(t.tasks, t.history[i].owner) {
      if i < |s.history| {
        assert t.history[i] == s.history[i];
      }
    }
    forall i: nat, j: nat | i < j < |t.history| && t.history[i].Answered? && t.history[j].Answered?
      ensures t.history[i].owner != t.history[j].owner
    {
      assert t.history[i] == s.history[i];
      if j < |s.history| {
        assert t.history[j] == s.history[j];
      }
    }
  }

  lemma {:induction false} EveryRunAnswersOnce(c: Config, steps: seq<Step>)
    requires c.capacity > 0
    ensures AnsweredOnce(Run(c, steps))
  {
    hide Apply;
    if steps != [] {
      hide AnsweredOnce, Follows;
      var front := steps[..|steps| - 1];
      EveryRunAnswersOnce(c, front);
      StepFollows(c, Run(c, front), steps[|steps| - 1]);
      FollowingAnswersOnce(Run(c, front), Run(c, steps));
    }
  }
}
