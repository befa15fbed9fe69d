/** The other half of the terminal protocol: from every state a run can reach, what
    was read can still get through. */
module TerminalProgress {
  import opened Prelude
  import opened TerminalInput
  import opened TerminalSafety

  /** Further steps from a state. */
  function Then(s: State, steps: seq<Step>): (r: State)
    decreases |steps|
  {
    if steps == [] then s else Then(Apply(s, steps[0]), steps[1..])
  }

  lemma {:induction false} RunThen(steps: seq<Step>, more: seq<Step>)
    ensures Run(steps + more) == Then(Run(steps), more)
    decreases |more|
  {
    hide Apply;
    if more == [] {
      assert steps + more == steps;
    } else {
      var one := steps + [more[0]];
      RunThen(one, more[1..]);
      assert one + more[1..] == steps + more;
      assert one[..|one| - 1] == steps;
    }
  }

  // ---- Open ends -----------------------------------------------------------

  /** Nobody closes a channel the other end still uses: the command queue goes with
      the orchestrator, the orchestrator stops listening only when the pump has
      stopped and nothing is left, and a pump that was not told to stop has dropped
      nothing. */
  ghost predicate OpenEnds(s: State) {
    && (!s.queueOpen ==> s.orchestrator.Ended?)
    && (!s.terminalOpen ==> s.pump.Stopped? && s.queue == [] && !s.orchestrator.Holding?)
    && (s.pump.Stopped? && !s.stopping && s.queueOpen ==> s.produced == s.taken + s.queue)
  }

  lemma NotYetEnded(produced: seq<Command>, passed: seq<Command>, held: seq<Command>)
    requires PumpLine(produced, passed, held, false)
    ensures Eof !in passed
  {
    assert produced == passed + held;
    assert forall i | 0 <= i < |passed| :: produced[i] == passed[i];
  }

  /** End of file in the orchestrator's hands: the pump has stopped and nothing follows. */
  lemma EndComesLast(s: State)
    requires Inv(s) && s.orchestrator == Holding(Eof)
    ensures s.pump.Stopped? && s.queue == []
  {
    hide Credit, Window, Wake, WriterLine, Inputs, Sum;
    var passed := s.taken + s.queue;
    assert s.taken == s.sent + [Eof];
    assert passed[|s.sent|] == Eof;
    if !s.pump.Stopped? {
      NotYetEnded(s.produced, passed, Held(s.pump));
    }
    assert s.produced[|s.sent|] == Eof;
  }

  lemma NothingDropped(s: State)
    requires Inv(s) && !s.pump.Stopped? && !s.pump.Offering?
    ensures s.produced == s.taken + s.queue
  {
    hide Credit, Window, Wake, WriterLine, OrchestratorLine, EofLast;
  }

  lemma PumpLoadOpen(s: State)
    requires OpenEnds(s)
    ensures OpenEnds(PumpLoadNext(s))
  {
  }

  lemma PumpWakeOpen(s: State)
    requires OpenEnds(s)
    ensures OpenEnds(PumpWakeNext(s))
  {
  }

  lemma PumpCheckStopOpen(s: State)
    requires OpenEnds(s)
    ensures OpenEnds(PumpCheckStopNext(s))
  {
  }

  /** The orchestrator going on without a command, or ending. */
  lemma OrchestratorOpen(s: State, inFlight: seq<nat>, available: nat, gate: nat, o: Orchestrator)
    requires OpenEnds(s) && !s.orchestrator.Ended? && !o.Holding?
    ensures OpenEnds(s.(inFlight := inFlight, available := available, gate := gate, orchestrator := o))
  {
  }

  lemma OrchCreditOpen(s: State)
    requires OpenEnds(s)
    ensures OpenEnds(OrchCreditNext(s))
  {
    hide OpenEnds;
    if s.orchestrator.Idle? && s.inFlight != [] {
      var n, rest := s.inFlight[0], s.inFlight[1..];
      if n == 0 || n > WINDOW {
        OrchestratorOpen(s, rest, s.available, s.gate, Ended(InvalidCredit));
      } else if s.available + n > WINDOW {
        OrchestratorOpen(s, rest, s.available, s.gate, Ended(SessionOvergrant));
      } else {
        OrchestratorOpen(s, rest, s.available + n, s.gate, Credited(n));
      }
    }
  }

  lemma OrchGateLoadOpen(s: State)
    requires OpenEnds(s)
    ensures OpenEnds(OrchGateLoadNext(s))
  {
  }

  lemma OrchGateCasOpen(s: State, spurious: bool)
    requires OpenEnds(s)
    ensures OpenEnds(OrchGateCasNext(s, spurious))
  {
    hide OpenEnds;
    if s.orchestrator.Granting? {
      var n, current := s.orchestrator.credits, s.orchestrator.current;
      OrchestratorOpen(s, s.inFlight, s.available, s.gate, Ended(GateRefused));
      OrchestratorOpen(s, s.inFlight, s.available, s.gate + n, if current == 0 then Notifying else Idle);
      OrchestratorOpen(s, s.inFlight, s.available, s.gate, Granting(n, s.gate));
    }
  }

  lemma OrchNotifyOpen(s: State, delivered: bool)
    requires OpenEnds(s)
    ensures OpenEnds(OrchNotifyNext(s, delivered))
  {
  }

  lemma OrchNoMoreOpen(s: State)
    requires OpenEnds(s)
    ensures OpenEnds(OrchNoMoreNext(s))
  {
  }

  lemma OrchOtherOpen(s: State)
    requires OpenEnds(s)
    ensures OpenEnds(OrchOtherNext(s))
  {
  }

  lemma GuestGrantOpen(s: State, credits: nat)
    requires OpenEnds(s)
    ensures OpenEnds(GuestGrantNext(s, credits))
  {
  }

  lemma GuestReceiveOpen(s: State)
    requires OpenEnds(s)
    ensures OpenEnds(GuestReceiveNext(s))
  {
  }

  lemma CloseQueueOpen(s: State)
    requires OpenEnds(s)
    ensures OpenEnds(CloseQueueNext(s))
  {
  }

  lemma WriterSendOpen(s: State, delivered: bool)
    requires OpenEnds(s)
    ensures OpenEnds(WriterSendNext(s, delivered))
  {
  }

  lemma RaiseStopOpen(s: State)
    requires OpenEnds(s)
    ensures OpenEnds(RaiseStopNext(s))
  {
  }

  lemma SignalStopOpen(s: State)
    requires OpenEnds(s)
    ensures OpenEnds(SignalStopNext(s))
  {
  }

  lemma PumpAgainOpen(s: State, failed: bool)
    requires Inv(s) && OpenEnds(s)
    ensures OpenEnds(PumpAgainNext(s, failed))
  {
    hide Inv;
    if !s.pump.Stopped? && !s.pump.Offering? {
      NothingDropped(s);
    }
  }

  lemma PumpStdinOpen(s: State, result: StdinResult)
    requires Inv(s) && OpenEnds(s)
    ensures OpenEnds(PumpStdinNext(s, result))
  {
    hide Inv;
    if !s.pump.Stopped? && !s.pump.Offering? {
      NothingDropped(s);
    }
  }

  lemma PumpLoadConsumeOpen(s: State)
    requires Inv(s) && OpenEnds(s)
    ensures OpenEnds(PumpLoadConsumeNext(s))
  {
    hide Inv;
    if !s.pump.Stopped? && !s.pump.Offering? {
      NothingDropped(s);
    }
  }

  lemma PumpCasOpen(s: State, spurious: bool)
    requires Inv(s) && OpenEnds(s)
    ensures OpenEnds(PumpCasNext(s, spurious))
  {
    hide Inv;
    if !s.pump.Stopped? && !s.pump.Offering? {
      NothingDropped(s);
    }
  }

  lemma PumpOfferOpen(s: State)
    requires Inv(s) && OpenEnds(s)
    ensures OpenEnds(PumpOfferNext(s))
  {
    hide Credit, Window, Wake, WriterLine, OrchestratorLine, EofLast;
    if s.pump.Offering? {
      var c := s.pump.command;
      assert s.produced == s.taken + s.queue + [c];
      assert s.taken + (s.queue + [c]) == s.taken + s.queue + [c];
    }
  }

  lemma OrchTakeOpen(s: State)
    requires OpenEnds(s)
    ensures OpenEnds(OrchTakeNext(s))
  {
    if s.queue != [] {
      assert s.taken + [s.queue[0]] + s.queue[1..] == s.taken + s.queue;
    }
  }

  lemma SendOpen(s: State, available: nat, writer: seq<Command>, sent: seq<Command>, lost: nat, ended: bool,
                 terminalOpen: bool, o: Orchestrator)
    requires OpenEnds(s) && s.orchestrator.Holding? && !o.Holding?
    requires terminalOpen == s.terminalOpen || (s.pump.Stopped? && s.queue == [])
    ensures OpenEnds(s.(available := available, writer := writer, sent := sent, lost := lost, ended := ended,
                        terminalOpen := terminalOpen, orchestrator := o))
  {
  }

  lemma OrchSendOpen(s: State)
    requires Inv(s) && OpenEnds(s)
    ensures OpenEnds(OrchSendNext(s))
  {
    hide Inv, OpenEnds;
    if s.orchestrator.Holding? {
      var command := s.orchestrator.command;
      var lost := s.lost + (if command.Input? then 1 else 0);
      if OrchSendNext(s).orchestrator.Ended? {
        SendOpen(s, s.available, s.writer, s.sent, lost, s.ended, s.terminalOpen, OrchSendNext(s).orchestrator);
      } else if command.Eof? {
        EndComesLast(s);
        SendOpen(s, s.available, s.writer + [command], s.sent + [command], s.lost, true, false, Idle);
      } else {
        SendOpen(s, s.available - 1, s.writer + [command], s.sent + [command], s.lost, s.ended, s.terminalOpen, Idle);
      }
    }
  }

  lemma StepOpen(s: State, step: Step)
    requires Inv(s) && OpenEnds(s)
    ensures OpenEnds(Apply(s, step))
  {
    hide Inv, OpenEnds;
    match step {
      case PumpLoad => PumpLoadOpen(s);
      case PumpWake => PumpWakeOpen(s);
      case PumpCheckStop => PumpCheckStopOpen(s);
      case PumpAgain(failed) => PumpAgainOpen(s, failed);
      case PumpStdin(result) => PumpStdinOpen(s, result);
      case PumpLoadConsume => PumpLoadConsumeOpen(s);
      case PumpCas(spurious) => PumpCasOpen(s, spurious);
      case PumpOffer => PumpOfferOpen(s);
      case GuestGrant(credits) => GuestGrantOpen(s, credits);
      case GuestReceive => GuestReceiveOpen(s);
      case OrchCredit => OrchCreditOpen(s);
      case OrchGateLoad => OrchGateLoadOpen(s);
      case OrchGateCas(spurious) => OrchGateCasOpen(s, spurious);
      case OrchNotify(delivered) => OrchNotifyOpen(s, delivered);
      case OrchTake => OrchTakeOpen(s);
      case OrchNoMore => OrchNoMoreOpen(s);
      case OrchSend => OrchSendOpen(s);
      case OrchOther => OrchOtherOpen(s);
      case CloseQueue => CloseQueueOpen(s);
      case WriterSend(delivered) => WriterSendOpen(s, delivered);
      case RaiseStop => RaiseStopOpen(s);
      case SignalStop => SignalStopOpen(s);
    }
  }

  lemma {:induction false} EveryRunOpen(steps: seq<Step>)
    ensures OpenEnds(Run(steps))
  {
    if steps != [] {
      hide Inv, Apply, OpenEnds;
      var front := steps[..|steps| - 1];
      EveryRunOpen(front);
      EveryRunKeeps(front);
      StepOpen(Run(front), steps[|steps| - 1]);
    }
  }

  // ---- Draining ------------------------------------------------------------

  /** Both ends are still at work and nobody has been told to stop. */
  ghost predicate Flowing(s: State) {
    Inv(s) && OpenEnds(s) && !s.orchestrator.Ended? && s.writerOpen && !s.stopping
  }

  /** How far the orchestrator is from waiting for the next event. */
  function Busy(o: Orchestrator, gate: nat): (n: nat) {
    match o
    case Credited(_) => 4
    case Granting(_, current) => if gate == current then 2 else 3
    case Notifying => 1
    case _ => 0
  }

  /** How many moves every command between the pump and the wire still has ahead. */
  function Ahead(s: State): (n: nat) {
    6 * (4 * |Held(s.pump)| + 3 * |s.queue| + 2 * |InHand(s.orchestrator)| + |s.writer|) + Busy(s.orchestrator, s.gate)
  }

  predicate Drained(s: State) {
    s.orchestrator.Idle? && !s.pump.Offering? && s.queue == [] && s.writer == []
  }

  /** The move that brings the foremost command on. */
  function NextStep(s: State): (step: Step) {
    if s.writer != [] then WriterSend(true)
    else match s.orchestrator
      case Holding(_) => OrchSend
      case Credited(_) => OrchGateLoad
      case Granting(_, _) => OrchGateCas(false)
      case Notifying => OrchNotify(true)
      case _ => if s.queue != [] then OrchTake else PumpOffer
  }

  /** Nothing is read or granted meanwhile, and what was granted stays. */
  ghost predicate Undisturbed(s: State, t: State) {
    && t.produced == s.produced && t.inFlight == s.inFlight && t.available <= s.available
    && t.gate + NotYetPassed(t.orchestrator) == s.gate + NotYetPassed(s.orchestrator)
  }

  /** A move that brings things on, and keeps them moving. */
  ghost predicate Advance(s: State, t: State) {
    !t.orchestrator.Ended? && t.writerOpen && !t.stopping && Undisturbed(s, t) && Ahead(t) < Ahead(s)
  }

  lemma WriterAdvances(s: State)
    requires Flowing(s) && s.writer != []
    ensures Advance(s, WriterSendNext(s, true))
  {
    hide Inv, OpenEnds;
  }

  lemma SentOn(s: State, available: nat, ended: bool, terminalOpen: bool)
    requires Flowing(s) && s.orchestrator.Holding? && available <= s.available
    ensures var command := s.orchestrator.command;
            Advance(s, s.(available := available, writer := s.writer + [command], sent := s.sent + [command],
                          ended := ended, terminalOpen := terminalOpen, orchestrator := Idle))
  {
    hide Inv, OpenEnds;
  }

  lemma SendAdvances(s: State)
    requires Flowing(s) && s.writer == [] && s.orchestrator.Holding?
    ensures Advance(s, OrchSendNext(s))
  {
    hide Inv, OpenEnds, Advance;
    OrchSendKeeps(s);
    SeesNoMiscount(OrchSendNext(s));
    var command := s.orchestrator.command;
    assert !s.ended && s.writerOpen;
    if command.Eof? {
      SentOn(s, s.available, true, false);
    } else {
      SentOn(s, s.available - 1, s.ended, s.terminalOpen);
    }
  }

  lemma SeesNoMiscount(s: State)
    requires Inv(s)
    ensures OrchestratorView(s.orchestrator, s.gate)
  {
    hide OrderInv, Window, Wake, Conserved, AllSendable, PumpView, OrchestratorView;
  }

  lemma LoadAdvances(s: State)
    requires Flowing(s) && s.orchestrator.Credited?
    ensures Advance(s, OrchGateLoadNext(s))
  {
    hide Inv, OpenEnds;
  }

  lemma OrchestratorAdvances(s: State, gate: nat, o: Orchestrator)
    requires Flowing(s) && !s.orchestrator.Holding? && !o.Holding? && !o.Ended?
    requires Busy(o, gate) < Busy(s.orchestrator, s.gate)
    requires gate + NotYetPassed(o) == s.gate + NotYetPassed(s.orchestrator)
    ensures Advance(s, s.(gate := gate, orchestrator := o))
  {
    hide Inv, OpenEnds;
  }

  lemma CasAdvances(s: State)
    requires Flowing(s) && s.orchestrator.Granting?
    ensures Advance(s, OrchGateCasNext(s, false))
  {
    hide Inv, OpenEnds, Advance;
    SeesNoMiscount(s);
    var n, current := s.orchestrator.credits, s.orchestrator.current;
    if s.gate == current {
      OrchestratorAdvances(s, s.gate + n, if current == 0 then Notifying else Idle);
    } else {
      OrchestratorAdvances(s, s.gate, Granting(n, s.gate));
    }
  }

  lemma NotifyAdvances(s: State)
    requires Flowing(s) && s.orchestrator.Notifying?
    ensures Advance(s, OrchNotifyNext(s, true))
  {
    hide Inv, OpenEnds;
  }

  lemma TakeAdvances(s: State)
    requires Flowing(s) && s.orchestrator.Idle? && s.queue != []
    ensures Advance(s, OrchTakeNext(s))
  {
    hide Inv;
  }

  lemma OfferAdvances(s: State)
    requires Flowing(s) && s.orchestrator.Idle? && s.queue == [] && s.pump.Offering?
    ensures Advance(s, PumpOfferNext(s))
  {
    hide Inv;
  }

  lemma Advances(s: State)
    requires Flowing(s) && !Drained(s)
    ensures Flowing(Apply(s, NextStep(s))) && Advance(s, Apply(s, NextStep(s)))
  {
    hide Inv, OpenEnds, Advance;
    StepKeeps(s, NextStep(s));
    StepOpen(s, NextStep(s));
    MovesOn(s);
    Going(s, Apply(s, NextStep(s)));
  }

  lemma Going(s: State, t: State)
    requires Advance(s, t) && Inv(t) && OpenEnds(t)
    ensures Flowing(t)
  {
    hide Inv, OpenEnds, Ahead;
  }

  lemma MovesOn(s: State)
    requires Flowing(s) && !Drained(s)
    ensures Advance(s, Apply(s, NextStep(s)))
  {
    hide Flowing, Advance;
    if s.writer != [] {
      WriterAdvances(s);
    } else {
      match s.orchestrator {
        case Holding(_) => SendAdvances(s);
        case Credited(_) => LoadAdvances(s);
        case Granting(_, _) => CasAdvances(s);
        case Notifying => NotifyAdvances(s);
        case Ended(_) => NotEnded(s);
        case Idle =>
          if s.queue != [] {
            TakeAdvances(s);
          } else {
            OfferAdvances(s);
          }
      }
    }
  }

  lemma NotEnded(s: State)
    requires Flowing(s)
    ensures !s.orchestrator.Ended?
  {
  }

  /** With nothing under way, what was read is what was written to the wire. */
  lemma DrainedIsWritten(s: State)
    requires Flowing(s) && Drained(s)
    ensures s.written == s.produced
  {
    hide Credit, Window, Wake, EofLast;
  }

  lemma {:induction false} Drains(s: State) returns (more: seq<Step>)
    requires Flowing(s)
    ensures var t := Then(s, more); Flowing(t) && Drained(t) && Undisturbed(s, t)
    decreases Ahead(s)
  {
    hide Flowing, Apply, NextStep, Drained, Ahead, Inv;
    if Drained(s) {
      more := [];
    } else {
      Advances(s);
      var rest := Drains(Apply(s, NextStep(s)));
      more := [NextStep(s)] + rest;
      assert more[1..] == rest;
    }
  }

  // ---- From stdin to the wire ----------------------------------------------

  /** What one step takes from stdin: a chunk, or its end. */
  function TakesIn(s: State, step: Step): (r: seq<Command>) {
    if !(step.PumpStdin? && s.pump == Polling(true)) then []
    else match step.result
      case Data(chunk) => if 1 <= |chunk| <= CHUNK_BYTES then [Input(chunk)] else []
      case Nothing => [Eof]
      case _ => []
  }

  /** Everything stdin delivered in a run. */
  function Delivered(steps: seq<Step>): (r: seq<Command>) {
    if steps == [] then []
    else
      var init := steps[..|steps| - 1];
      Delivered(init) + TakesIn(Run(init), steps[|steps| - 1])
  }

  /** A chunk the pump has read and not yet paid for. */
  function Pending(p: Pump): (r: seq<Command>) {
    if p.Read? || p.Consuming? then [Input(p.chunk)] else []
  }

  /** One step, seen by the pump: what it takes in is produced or pending. */
  ghost predicate TakesOver(s: State, t: State, taken: seq<Command>) {
    t.produced + Pending(t.pump) == s.produced + Pending(s.pump) + taken
  }

  lemma Untouched(s: State, t: State)
    requires t.produced == s.produced && Pending(t.pump) == Pending(s.pump)
    ensures TakesOver(s, t, [])
  {
  }

  lemma Grows(s: State, t: State, taken: seq<Command>)
    requires Pending(s.pump) == [] && t.produced + Pending(t.pump) == s.produced + taken
    ensures TakesOver(s, t, taken)
  {
    assert s.produced + [] + taken == s.produced + taken;
  }

  lemma ChunkTakesOver(s: State, chunk: seq<Byte>)
    ensures TakesOver(s, PumpStdinNext(s, Data(chunk)), TakesIn(s, PumpStdin(Data(chunk))))
  {
    hide TakesOver;
    if s.pump == Polling(true) && 1 <= |chunk| <= CHUNK_BYTES {
      var t := s.(pump := Read(chunk));
      assert PumpStdinNext(s, Data(chunk)) == t;
      hide PumpStdinNext;
      Grows(s, t, [Input(chunk)]);
    } else {
      Untouched(s, s);
    }
  }

  lemma EndTakesOver(s: State)
    ensures TakesOver(s, PumpStdinNext(s, Nothing), TakesIn(s, PumpStdin(Nothing)))
  {
    hide TakesOver;
    if s.pump == Polling(true) {
      var t := s.(pump := Offering(Eof), produced := s.produced + [Eof]);
      assert PumpStdinNext(s, Nothing) == t;
      hide PumpStdinNext;
      assert t.produced + [] == s.produced + [Eof];
      Grows(s, t, [Eof]);
    } else {
      Untouched(s, s);
    }
  }

  lemma StdinTakesOver(s: State, result: StdinResult)
    ensures TakesOver(s, PumpStdinNext(s, result), TakesIn(s, PumpStdin(result)))
  {
    hide TakesOver;
    match result {
      case Data(chunk) => ChunkTakesOver(s, chunk);
      case Nothing => EndTakesOver(s);
      case Interrupted => Untouched(s, PumpStdinNext(s, result));
      case Failed => Untouched(s, PumpStdinNext(s, result));
    }
  }

  lemma LoadTakesOver(s: State)
    requires Inv(s)
    ensures TakesOver(s, PumpLoadConsumeNext(s), [])
  {
    PumpSees(s);
    hide Inv, TakesOver;
    Untouched(s, PumpLoadConsumeNext(s));
  }

  lemma CasTakesOver(s: State, spurious: bool)
    requires Inv(s)
    ensures TakesOver(s, PumpCasNext(s, spurious), [])
  {
    PumpSees(s);
    hide Inv;
    var t := PumpCasNext(s, spurious);
    if s.pump.Consuming? && t.pump.Offering? {
      assert t.produced == s.produced + [Input(s.pump.chunk)] && Pending(t.pump) == [];
      hide PumpCasNext;
    } else {
      hide TakesOver;
      Untouched(s, t);
    }
  }

  lemma PumpLoadTakesOver(s: State)
    ensures TakesOver(s, PumpLoadNext(s), [])
  {
    hide TakesOver;
    Untouched(s, PumpLoadNext(s));
  }

  lemma PumpWakeTakesOver(s: State)
    ensures TakesOver(s, PumpWakeNext(s), [])
  {
    hide TakesOver;
    Untouched(s, PumpWakeNext(s));
  }

  lemma PumpCheckStopTakesOver(s: State)
    ensures TakesOver(s, PumpCheckStopNext(s), [])
  {
    hide TakesOver;
    Untouched(s, PumpCheckStopNext(s));
  }

  lemma PumpAgainTakesOver(s: State, failed: bool)
    ensures TakesOver(s, PumpAgainNext(s, failed), [])
  {
    hide TakesOver;
    Untouched(s, PumpAgainNext(s, failed));
  }

  lemma PumpOfferTakesOver(s: State)
    ensures TakesOver(s, PumpOfferNext(s), [])
  {
    hide TakesOver;
    Untouched(s, PumpOfferNext(s));
  }

  /** The other actors neither read nor produce. */
  lemma OthersTakeNothing(s: State, step: Step)
    requires !step.PumpLoad? && !step.PumpWake? && !step.PumpCheckStop? && !step.PumpAgain? && !step.PumpOffer?
    requires !step.PumpStdin? && !step.PumpLoadConsume? && !step.PumpCas?
    ensures NotByPump(s, Apply(s, step))
  {
    hide NotByPump, GuestGrantNext, GuestReceiveNext, OrchCreditNext, OrchGateLoadNext, OrchGateCasNext, OrchNotifyNext,
      OrchTakeNext, OrchNoMoreNext, OrchSendNext, OrchOtherNext, CloseQueueNext, WriterSendNext, RaiseStopNext,
      SignalStopNext;
  }

  lemma StepTakesOver(s: State, step: Step)
    requires Inv(s)
    ensures TakesOver(s, Apply(s, step), TakesIn(s, step))
  {
    hide Inv, TakesOver;
    match step {
      case PumpStdin(result) => StdinTakesOver(s, result);
      case PumpLoadConsume => LoadTakesOver(s);
      case PumpCas(spurious) => CasTakesOver(s, spurious);
      case PumpLoad => PumpLoadTakesOver(s);
      case PumpWake => PumpWakeTakesOver(s);
      case PumpCheckStop => PumpCheckStopTakesOver(s);
      case PumpAgain(failed) => PumpAgainTakesOver(s, failed);
      case PumpOffer => PumpOfferTakesOver(s);
      case _ =>
        OthersTakeNothing(s, step);
        Untouched(s, Apply(s, step));
    }
  }

  /** What stdin delivered is what the pump produced, and the chunk it has in hand. */
  lemma {:induction false} DeliveredIsProduced(steps: seq<Step>)
    ensures var s := Run(steps); s.produced + Pending(s.pump) == Delivered(steps)
  {
    if steps == [] {
    } else {
      hide Inv, Apply, TakesIn;
      var init, last := steps[..|steps| - 1], steps[|steps| - 1];
      DeliveredIsProduced(init);
      EveryRunKeeps(init);
      StepTakesOver(Run(init), last);
    }
  }

  /** Whatever stops, the wire carries only what stdin delivered, in order and from the
      start. */
  lemma WireFollowsStdin(steps: seq<Step>)
    ensures Run(steps).written <= Delivered(steps)
  {
    hide Run, Delivered;
    DeliveredIsProduced(steps);
    WireFollowsPump(steps);
  }

  /** The pump pays for the chunk in its hands. */
  lemma Settles(s: State) returns (more: seq<Step>)
    requires Flowing(s)
    ensures var t := Then(s, more); Flowing(t) && t.produced == s.produced + Pending(s.pump)
  {
    hide Flowing, Apply;
    if s.pump.Read? {
      var t := Apply(s, PumpLoadConsume);
      LoadsToPay(s);
      Pays(t);
      ThenTwo(s, PumpLoadConsume, PumpCas(false));
      more := [PumpLoadConsume, PumpCas(false)];
    } else if s.pump.Consuming? && s.pump.current != s.gate {
      var t := Apply(s, PumpCas(false));
      LooksAgain(s);
      Pays(t);
      ThenTwo(s, PumpCas(false), PumpCas(false));
      more := [PumpCas(false), PumpCas(false)];
    } else if s.pump.Consuming? {
      Pays(s);
      ThenOne(s, PumpCas(false));
      more := [PumpCas(false)];
    } else {
      ThenNone(s);
      more := [];
    }
  }

  lemma ThenOne(s: State, a: Step)
    ensures Then(s, [a]) == Apply(s, a)
  {
    hide Apply;
    assert [a][1..] == [];
    ThenNone(Apply(s, a));
  }

  lemma ThenTwo(s: State, a: Step, b: Step)
    ensures Then(s, [a, b]) == Apply(Apply(s, a), b)
  {
    hide Apply;
    assert [a, b][1..] == [b];
    ThenOne(Apply(s, a), b);
  }

  /** A move of the pump alone keeps things flowing. */
  lemma PumpFlows(s: State, step: Step)
    requires Flowing(s) && (step.PumpLoadConsume? || step.PumpCas?)
    ensures Flowing(Apply(s, step))
  {
    hide Inv, OpenEnds, PumpLoadConsumeNext, PumpCasNext;
    StepKeeps(s, step);
    StepOpen(s, step);
  }

  lemma LoadsToPay(s: State)
    requires Flowing(s) && s.pump.Read?
    ensures var t := Apply(s, PumpLoadConsume);
            Flowing(t) && t.pump == Consuming(s.pump.chunk, t.gate) && t.produced == s.produced
  {
    PumpFlows(s, PumpLoadConsume);
    assert s.gate > 0 by { PumpSees(s); }
    hide Inv, OpenEnds, Flowing;
  }

  lemma LooksAgain(s: State)
    requires Flowing(s) && s.pump.Consuming? && s.pump.current != s.gate
    ensures var t := Apply(s, PumpCas(false));
            Flowing(t) && t.pump == Consuming(s.pump.chunk, t.gate) && t.produced == s.produced
  {
    PumpFlows(s, PumpCas(false));
    assert s.gate > 0 by { PumpSees(s); }
    hide Inv, OpenEnds, Flowing;
  }

  lemma Pays(s: State)
    requires Flowing(s) && s.pump.Consuming? && s.pump.current == s.gate
    ensures var t := Apply(s, PumpCas(false));
            Flowing(t) && t.produced == s.produced + [Input(s.pump.chunk)]
  {
    PumpFlows(s, PumpCas(false));
    assert s.gate > 0 by { PumpSees(s); }
    hide Inv, OpenEnds, Flowing;
  }

  /** While the orchestrator runs, the writer is up and nobody asked the pump to stop,
      everything stdin has delivered can still reach the wire: every octet, in order,
      and its end. */
  lemma EverythingArrives(steps: seq<Step>)
    ensures var s := Run(steps);
            !s.orchestrator.Ended? && s.writerOpen && !s.stopping ==>
            exists more :: Run(steps + more).written == Delivered(steps)
  {
    hide Inv, OpenEnds, Drained, Run, Apply, Delivered;
    var s := Run(steps);
    EveryRunKeeps(steps);
    EveryRunOpen(steps);
    DeliveredIsProduced(steps);
    if Flowing(s) {
      var settling := Settles(s);
      var draining := Drains(Then(s, settling));
      DrainedIsWritten(Then(Then(s, settling), draining));
      ThenConcat(s, settling, draining);
      RunThen(steps, settling + draining);
    }
  }

  // ---- A grant -------------------------------------------------------------

  /** The orchestrator takes the next grant and passes it on. */
  const GRANT: seq<Step> := [OrchCredit, OrchGateLoad, OrchGateCas(false)]

  lemma ThenThree(s: State, a: Step, b: Step, c: Step)
    ensures Then(s, [a, b, c]) == Apply(Apply(Apply(s, a), b), c)
  {
    hide Apply;
    assert [a, b, c][1..] == [b, c] && [b, c][1..] == [c] && [c][1..] == [];
    var s1 := Apply(s, a);
    var s2 := Apply(s1, b);
    assert Then(s, [a, b, c]) == Then(s1, [b, c]) && Then(s1, [b, c]) == Then(s2, [c]);
    assert Then(s2, [c]) == Then(Apply(s2, c), []);
  }

  lemma {:induction false} ThenConcat(s: State, a: seq<Step>, b: seq<Step>)
    ensures Then(s, a + b) == Then(Then(s, a), b)
    decreases |a|
  {
    hide Apply;
    if a == [] {
      assert a + b == b;
    } else {
      ThenConcat(Apply(s, a[0]), a[1..], b);
      assert (a + b)[1..] == a[1..] + b;
    }
  }

  lemma SessionAccepts(s: State, n: nat, rest: seq<nat>)
    requires s.orchestrator.Idle? && s.inFlight != [] && n == s.inFlight[0] && rest == s.inFlight[1..]
    requires 1 <= n <= WINDOW && s.available + n <= WINDOW
    ensures OrchCreditNext(s) == s.(inFlight := rest, available := s.available + n, orchestrator := Credited(n))
  {
  }

  lemma GateGrows(s: State, n: nat)
    requires s.orchestrator == Credited(n) && s.gate + n <= WINDOW
    ensures OrchGateCasNext(OrchGateLoadNext(s), false) ==
            s.(gate := s.gate + n, orchestrator := if s.gate == 0 then Notifying else Idle)
  {
    var loaded := OrchGateLoadNext(s);
    assert loaded == s.(orchestrator := Granting(n, s.gate));
    hide OrchGateLoadNext;
  }

  /** The session accepts the grant, and the gate grows by it. */
  lemma GrantPasses(s: State, n: nat, rest: seq<nat>)
    requires s.orchestrator.Idle? && s.inFlight != [] && n == s.inFlight[0] && rest == s.inFlight[1..]
    requires 1 <= n && s.available + n <= WINDOW && s.gate <= s.available
    ensures Then(s, GRANT) == s.(inFlight := rest, gate := s.gate + n, available := s.available + n,
                                 orchestrator := if s.gate == 0 then Notifying else Idle)
  {
    ThenThree(s, OrchCredit, OrchGateLoad, OrchGateCas(false));
    hide OrchCreditNext, OrchGateCasNext, OrchGateLoadNext, Then, NotByPump;
    SessionAccepts(s, n, rest);
    GateGrows(OrchCreditNext(s), n);
  }

  /** A pump that waits for the wake pipe alone wakes and sees the credit. */
  lemma PumpAwakes(s: State)
    requires s.pump == Polling(false) && s.wake > 0 && s.gate > 0 && !s.stopping
    ensures var t := Then(s, [PumpWake, PumpCheckStop, PumpLoad]);
            t == s.(pump := Polling(true), wake := t.wake)
  {
    ThenThree(s, PumpWake, PumpCheckStop, PumpLoad);
    hide Then;
  }

  lemma Awaited(s: State)
    requires Inv(s)
    ensures s.gate <= s.available
    ensures s.pump == Polling(false) && s.gate > 0 && s.orchestrator.Idle? ==> s.wake > 0
  {
    hide OrderInv, Window, AllSendable, PumpView, OrchestratorView, Inputs;
  }

  /** The step the orchestrator owes the pump, and the steps of a pump it wakes. */
  function WakeSteps(s: State): (more: seq<Step>) {
    (if s.orchestrator.Notifying? then [OrchNotify(true)] else []) +
    (if s.pump == Polling(false) then [PumpWake, PumpCheckStop, PumpLoad] else [])
  }

  lemma Notifies(s: State)
    requires s.orchestrator.Notifying?
    ensures Then(s, [OrchNotify(true)]) == s.(wake := s.wake + 1, orchestrator := Idle)
  {
    assert [OrchNotify(true)][1..] == [];
  }

  /** With credit in the gate the pump gets to see it. */
  lemma Wakes(s: State)
    requires s.gate > 0 && !s.stopping && (s.orchestrator.Notifying? || s.orchestrator.Idle?)
    requires s.pump == Polling(false) && s.orchestrator.Idle? ==> s.wake > 0
    ensures var t := Then(s, WakeSteps(s));
            t == s.(orchestrator := Idle, wake := t.wake,
                    pump := if s.pump == Polling(false) then Polling(true) else s.pump)
  {
    hide Apply, Then;
    var owed := if s.orchestrator.Notifying? then [OrchNotify(true)] else [];
    var s1 := Then(s, owed);
    assert s1 == s.(orchestrator := Idle, wake := s1.wake) && s1.wake >= s.wake &&
           (s.orchestrator.Notifying? ==> s1.wake > 0) by {
      if s.orchestrator.Notifying? {
        Notifies(s);
      } else {
        ThenNone(s);
      }
    }
    ThenConcat(s, owed, if s.pump == Polling(false) then [PumpWake, PumpCheckStop, PumpLoad] else []);
    if s.pump == Polling(false) {
      PumpAwakes(s1);
    } else {
      ThenNone(s1);
    }
  }

  lemma ThenNone(s: State)
    ensures Then(s, []) == s
  {
  }

  /** What a grant does from a state where nothing is under way. */
  lemma GrantLands(s: State) returns (more: seq<Step>)
    requires Flowing(s) && s.orchestrator.Idle? && s.inFlight != []
    requires 1 <= s.inFlight[0] && s.available + s.inFlight[0] <= WINDOW
    ensures var t, n := Then(s, more), s.inFlight[0];
            && t.gate == s.gate + n && t.available == s.available + n && t.inFlight == s.inFlight[1..]
            && t.orchestrator.Idle? && t.pump != Polling(false)
  {
    hide Then, Inv, OpenEnds, Apply;
    var n, rest := s.inFlight[0], s.inFlight[1..];
    Awaited(s);
    GrantPasses(s, n, rest);
    var s1 := Then(s, GRANT);
    Wakes(s1);
    more := GRANT + WakeSteps(s1);
    ThenConcat(s, GRANT, WakeSteps(s1));
  }

  /** From every run in which the orchestrator runs, the writer is up and nobody asked
      the pump to stop, a grant in flight that the window allows can be in the gate,
      behind whatever was granted before, with the pump not asleep. */
  lemma GrantArrives(steps: seq<Step>)
    ensures var s := Run(steps);
            && !s.orchestrator.Ended? && s.writerOpen && !s.stopping
            && s.inFlight != [] && 1 <= s.inFlight[0] && s.available + s.inFlight[0] <= WINDOW ==>
            exists more ::
              var t := Run(steps + more);
              && t.gate == s.gate + NotYetPassed(s.orchestrator) + s.inFlight[0] && t.inFlight == s.inFlight[1..]
              && t.orchestrator.Idle? && t.pump != Polling(false)
  {
    hide Inv, OpenEnds, Apply, Run;
    var s := Run(steps);
    EveryRunKeeps(steps);
    EveryRunOpen(steps);
    if Flowing(s) && s.inFlight != [] && 1 <= s.inFlight[0] && s.available + s.inFlight[0] <= WINDOW {
      var draining := Drains(s);
      var landing := GrantLands(Then(s, draining));
      ThenConcat(s, draining, landing);
      RunThen(steps, draining + landing);
    }
  }
}
