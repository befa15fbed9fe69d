/** Credited terminal input: the stdin pump, the atomic credit gate, the command
    queue, the orchestrator loop, the session counter, the writer queue and the
    guest, as one step system. */
module TerminalInput {
  import opened Prelude

  /** `TERMINAL_INPUT_WINDOW_CREDITS` and the queue depths derived from it. */
  const WINDOW: nat := 64
  const QUEUE_DEPTH: nat := WINDOW + 1
  const CHUNK_BYTES: nat := 4096
  const WAKE_READ: nat := 8

  datatype Command = Input(chunk: seq<Byte>) | Eof

  datatype StopReason = Requested | QueueClosed | ReadFailed | EndOfInput | WithoutCredit

  /** Where the pump thread stands. */
  datatype Pump =
    | Top
    | Polling(hasCredit: bool)
    | Woken
    | Read(chunk: seq<Byte>)
    | Consuming(chunk: seq<Byte>, current: nat)
    | Offering(command: Command)
    | Stopped(reason: StopReason)

  datatype EndReason =
    | InvalidCredit | SessionOvergrant | GateRefused | WakeFailed
    | InputEnded | BadChunk | NoCredit | WriterFull | WriterStopped | Other

  /** Where the orchestrator's monitor loop stands. */
  datatype Orchestrator =
    | Idle
    | Credited(credits: nat)
    | Granting(credits: nat, current: nat)
    | Notifying
    | Holding(command: Command)
    | Ended(reason: EndReason)

  datatype Stopper = Running | Raised | Signalled

  /** The last four fields are history: what the pump produced, what the
      orchestrator took from the queue and passed to the writer, in order, and
      how many inputs were given up when an actor stopped. */
  datatype State = State(
    pump: Pump,
    gate: nat,
    wake: nat,
    stopping: bool,
    stopper: Stopper,
    queue: seq<Command>,
    queueOpen: bool,
    queueWasFull: bool,
    orchestrator: Orchestrator,
    terminalOpen: bool,
    available: nat,
    ended: bool,
    writer: seq<Command>,
    writerOpen: bool,
    written: seq<Command>,
    received: nat,
    inFlight: seq<nat>,
    granted: nat,
    honest: bool,
    produced: seq<Command>,
    taken: seq<Command>,
    sent: seq<Command>,
    lost: nat)

  const INITIAL := State(Top, 0, 0, false, Running, [], true, false, Idle, true, 0, false, [], true, [], 0, [], 0, true,
                         [], [], [], 0)

  function Inputs(commands: seq<Command>): (n: nat)
    ensures n <= |commands|
  {
    if commands == [] then 0
    else Inputs(commands[..|commands| - 1]) + (if commands[|commands| - 1].Input? then 1 else 0)
  }

  function Sum(credits: seq<nat>): (n: nat) {
    if credits == [] then 0 else credits[0] + Sum(credits[1..])
  }

  datatype StdinResult = Data(chunk: seq<Byte>) | Nothing | Interrupted | Failed

  datatype Step =
    | PumpLoad
    | PumpWake
    | PumpCheckStop
    | PumpAgain(failed: bool)
    | PumpStdin(result: StdinResult)
    | PumpLoadConsume
    | PumpCas(spurious: bool)
    | PumpOffer
    | GuestGrant(credits: nat)
    | GuestReceive
    | OrchCredit
    | OrchGateLoad
    | OrchGateCas(spurious: bool)
    | OrchNotify(delivered: bool)
    | OrchTake
    | OrchNoMore
    | OrchSend
    | OrchOther
    | CloseQueue
    | WriterSend(delivered: bool)
    | RaiseStop
    | SignalStop

  /** The pump leaves the orchestrator, the session and the writer alone. */
  ghost predicate ByPump(s: State, r: State) {
    && r.orchestrator == s.orchestrator && r.available == s.available && r.ended == s.ended
    && r.writer == s.writer && r.writerOpen == s.writerOpen && r.written == s.written
    && r.stopping == s.stopping && r.inFlight == s.inFlight
  }

  /** Nobody else moves the pump or speaks for it. */
  ghost predicate NotByPump(s: State, r: State) {
    r.pump == s.pump && r.produced == s.produced
  }

  // ---- The pump thread -----------------------------------------------------

  function PumpLoadNext(s: State): (r: State)
    ensures ByPump(s, r)
  {
    if s.pump.Top? then s.(pump := Polling(s.gate > 0)) else s
  }

  /** `poll` reports the wake pipe: up to eight bytes are drained, and the pump
      goes to look at the stop flag. */
  function PumpWakeNext(s: State): (r: State)
    ensures ByPump(s, r)
  {
    if s.pump.Polling? && s.wake > 0
    then s.(pump := Woken, wake := if s.wake > WAKE_READ then s.wake - WAKE_READ else 0)
    else s
  }

  function PumpCheckStopNext(s: State): (r: State)
    ensures ByPump(s, r)
  {
    if !s.pump.Woken? then s
    else s.(pump := if s.stopping then Stopped(Requested) else Top)
  }

  /** `poll` was interrupted or reported nothing useful, or failed for good. */
  function PumpAgainNext(s: State, failed: bool): (r: State)
    ensures ByPump(s, r)
  {
    if s.pump.Polling? then s.(pump := if failed then Stopped(ReadFailed) else Top) else s
  }

  /** `poll` reports stdin, which is only asked for with credit at hand. */
  function PumpStdinNext(s: State, result: StdinResult): (r: State)
    ensures ByPump(s, r)
  {
    if !(s.pump.Polling? && s.pump.hasCredit) then s
    else match result
      case Data(chunk) => if 1 <= |chunk| <= CHUNK_BYTES then s.(pump := Read(chunk)) else s
      case Nothing => s.(pump := Offering(Eof), produced := s.produced + [Eof])
      case Interrupted => s.(pump := Top)
      case Failed => s.(pump := Stopped(ReadFailed))
  }

  function PumpLoadConsumeNext(s: State): (r: State)
    ensures ByPump(s, r)
  {
    if !s.pump.Read? then s
    else s.(pump := if s.gate == 0 then Stopped(WithoutCredit) else Consuming(s.pump.chunk, s.gate))
  }

  /** One round of the CAS loop of `consume`. */
  function PumpCasNext(s: State, spurious: bool): (r: State)
    ensures ByPump(s, r)
  {
    if !s.pump.Consuming? then s
    else if s.gate == s.pump.current && s.gate > 0 && !spurious then
      s.(gate := s.gate - 1,
         pump := Offering(Input(s.pump.chunk)),
         produced := s.produced + [Input(s.pump.chunk)])
    else if s.gate == 0 then s.(pump := Stopped(WithoutCredit))
    else s.(pump := Consuming(s.pump.chunk, s.gate))
  }

  /** One round of `offer`: a full queue is retried, a command given up is lost. */
  function PumpOfferNext(s: State): (r: State)
    ensures ByPump(s, r)
  {
    if !s.pump.Offering? then s
    else
      var given := if s.pump.command.Input? then 1 else 0;
      if s.stopping then s.(pump := Stopped(Requested), lost := s.lost + given)
      else if !s.queueOpen then s.(pump := Stopped(QueueClosed), lost := s.lost + given)
      else if |s.queue| >= QUEUE_DEPTH then s.(queueWasFull := true)
      else
        s.(queue := s.queue + [s.pump.command],
           pump := if s.pump.command.Eof? then Stopped(EndOfInput) else Top)
  }

  // ---- The guest -----------------------------------------------------------

  /** The guest keeps within the window plus the inputs it has received. */
  predicate Honest(s: State, credits: nat)
    requires s.received <= |s.written|
  {
    s.granted + credits <= WINDOW + Inputs(s.written[..s.received])
  }

  function GuestGrantNext(s: State, credits: nat): (r: State)
    ensures NotByPump(s, r)
  {
    if s.received > |s.written| then s
    else
      s.(inFlight := s.inFlight + [credits],
         granted := s.granted + credits,
         honest := s.honest && Honest(s, credits))
  }

  function GuestReceiveNext(s: State): (r: State)
    ensures NotByPump(s, r)
  {
    if s.received < |s.written| then s.(received := s.received + 1) else s
  }

  // ---- The orchestrator loop -----------------------------------------------

  /** A credit event is validated and added to the session counter. */
  function Accepted(available: nat, n: nat): (o: Orchestrator) {
    if n == 0 || n > WINDOW then Ended(InvalidCredit)
    else if available + n > WINDOW then Ended(SessionOvergrant)
    else Credited(n)
  }

  function OrchCreditNext(s: State): (r: State)
    ensures NotByPump(s, r)
  {
    if !(s.orchestrator.Idle? && s.inFlight != []) then s
    else
      var o := Accepted(s.available, s.inFlight[0]);
      s.(inFlight := s.inFlight[1..],
         available := if o.Credited? then s.available + s.inFlight[0] else s.available,
         orchestrator := o)
  }

  function OrchGateLoadNext(s: State): (r: State)
    ensures NotByPump(s, r)
  {
    if s.orchestrator.Credited? then s.(orchestrator := Granting(s.orchestrator.credits, s.gate)) else s
  }

  /** One round of the CAS loop of `grant`. */
  function OrchGateCasNext(s: State, spurious: bool): (r: State)
    ensures NotByPump(s, r)
  {
    if !s.orchestrator.Granting? then s
    else
      var n, current := s.orchestrator.credits, s.orchestrator.current;
      if current + n > WINDOW then s.(orchestrator := Ended(GateRefused))
      else if s.gate == current && !spurious then
        s.(gate := s.gate + n, orchestrator := if current == 0 then Notifying else Idle)
      else s.(orchestrator := Granting(n, s.gate))
  }

  function OrchNotifyNext(s: State, delivered: bool): (r: State)
    ensures NotByPump(s, r)
  {
    if !s.orchestrator.Notifying? then s
    else if delivered then s.(wake := s.wake + 1, orchestrator := Idle)
    else s.(orchestrator := Ended(WakeFailed))
  }

  function OrchTakeNext(s: State): (r: State)
    ensures NotByPump(s, r)
  {
    if s.orchestrator.Idle? && s.terminalOpen && s.queue != []
    then s.(orchestrator := Holding(s.queue[0]), queue := s.queue[1..], taken := s.taken + [s.queue[0]])
    else s
  }

  /** `recv` returns nothing once the pump is gone and the queue is drained. */
  function OrchNoMoreNext(s: State): (r: State)
    ensures NotByPump(s, r)
  {
    if s.orchestrator.Idle? && s.queue == [] && s.pump.Stopped? then s.(terminalOpen := false) else s
  }

  /** `queue_input` on the writer's bounded channel. */
  function QueueInput(writerOpen: bool, queued: nat): (failure: Option<EndReason>) {
    if !writerOpen then Some(WriterStopped) else if queued >= QUEUE_DEPTH then Some(WriterFull) else None
  }

  /** Why `send_terminal` fails, if it does. */
  function SendFailure(s: State, command: Command): (failure: Option<EndReason>) {
    if s.ended then Some(InputEnded)
    else if command.Input? && (command.chunk == [] || |command.chunk| > CHUNK_BYTES) then Some(BadChunk)
    else if command.Input? && s.available == 0 then Some(NoCredit)
    else QueueInput(s.writerOpen, |s.writer|)
  }

  /** A chunk spends a credit; end of file ends the session's input. */
  function Queued(s: State, command: Command): (r: State) {
    s.(available := if command.Input? && s.available > 0 then s.available - 1 else s.available,
       ended := s.ended || command.Eof?,
       terminalOpen := s.terminalOpen && command.Input?,
       writer := s.writer + [command],
       sent := s.sent + [command],
       orchestrator := Idle)
  }

  /** `send_terminal` on the held command. */
  function OrchSendNext(s: State): (r: State)
    ensures NotByPump(s, r)
  {
    if !s.orchestrator.Holding? then s
    else
      var command := s.orchestrator.command;
      match SendFailure(s, command)
      case Some(reason) => Drop(s, command, reason)
      case None => Queued(s, command)
  }

  /** A failed send ends the run; a consumed credit was put back. */
  function Drop(s: State, command: Command, reason: EndReason): (r: State) {
    s.(orchestrator := Ended(reason), lost := s.lost + (if command.Input? then 1 else 0))
  }

  /** Cancellation, a signal, the guest's terminal response, any other error. */
  function OrchOtherNext(s: State): (r: State)
    ensures NotByPump(s, r)
  {
    if s.orchestrator.Idle? then s.(orchestrator := Ended(Other)) else s
  }

  function CloseQueueNext(s: State): (r: State)
    ensures NotByPump(s, r)
  {
    if s.orchestrator.Ended? then s.(queueOpen := false) else s
  }

  // ---- The writer task and the stopper -------------------------------------

  function WriterSendNext(s: State, delivered: bool): (r: State)
    ensures NotByPump(s, r)
  {
    if !(s.writerOpen && s.writer != []) then s
    else if delivered then s.(written := s.written + [s.writer[0]], writer := s.writer[1..])
    else s.(writerOpen := false, writer := s.writer[1..])
  }

  /** `shutdown` raises the flag before it writes the wake byte. */
  function RaiseStopNext(s: State): (r: State)
    ensures NotByPump(s, r)
  {
    if s.stopper.Running? then s.(stopping := true, stopper := Raised) else s
  }

  function SignalStopNext(s: State): (r: State)
    ensures NotByPump(s, r)
  {
    if s.stopper.Raised? then s.(wake := s.wake + 1, stopper := Signalled) else s
  }

  function Apply(s: State, step: Step): (r: State) {
    match step
    case PumpLoad => PumpLoadNext(s)
    case PumpWake => PumpWakeNext(s)
    case PumpCheckStop => PumpCheckStopNext(s)
    case PumpAgain(failed) => PumpAgainNext(s, failed)
    case PumpStdin(result) => PumpStdinNext(s, result)
    case PumpLoadConsume => PumpLoadConsumeNext(s)
    case PumpCas(spurious) => PumpCasNext(s, spurious)
    case PumpOffer => PumpOfferNext(s)
    case GuestGrant(credits) => GuestGrantNext(s, credits)
    case GuestReceive => GuestReceiveNext(s)
    case OrchCredit => OrchCreditNext(s)
    case OrchGateLoad => OrchGateLoadNext(s)
    case OrchGateCas(spurious) => OrchGateCasNext(s, spurious)
    case OrchNotify(delivered) => OrchNotifyNext(s, delivered)
    case OrchTake => OrchTakeNext(s)
    case OrchNoMore => OrchNoMoreNext(s)
    case OrchSend => OrchSendNext(s)
    case OrchOther => OrchOtherNext(s)
    case CloseQueue => CloseQueueNext(s)
    case WriterSend(delivered) => WriterSendNext(s, delivered)
    case RaiseStop => RaiseStopNext(s)
    case SignalStop => SignalStopNext(s)
  }

  /** The state after any sequence of steps. */
  function Run(steps: seq<Step>): (s: State) {
    if steps == [] then INITIAL else Apply(Run(steps[..|steps| - 1]), steps[|steps| - 1])
  }

  // ---- Session counter object ----------------------------------------------

  /** `TerminalInputState` and the two operations of the session that use it. */
  class SessionInput {
    var ended: bool
    var available: nat

    /** The object holds the session's part of a state. */
    ghost predicate Holds(s: State)
      reads this
    {
      s.ended == ended && s.available == available
    }

    constructor ()
      ensures Holds(INITIAL)
    {
      ended, available := false, 0;
    }

    method Grant(credits: nat) returns (ok: bool)
      modifies this
      ensures ok <==> old(available) + credits <= WINDOW
      ensures available == (if ok then old(available) + credits else old(available)) && ended == old(ended)
    {
      ok := available + credits <= WINDOW;
      if ok {
        available := available + credits;
      }
    }

    method Consume() returns (failure: Option<EndReason>)
      modifies this
      ensures failure == if old(ended) then Some(InputEnded) else if old(available) == 0 then Some(NoCredit) else None
      ensures available == (if failure.None? then old(available) - 1 else old(available)) && ended == old(ended)
    {
      if ended {
        return Some(InputEnded);
      }
      if available == 0 {
        return Some(NoCredit);
      }
      available := available - 1;
      return None;
    }

    /** The credit branch of `next_event` is the orchestrator's credit step: the
        same verdict, and the object holds the state after it. */
    method OnCredit(ghost s: State, credits: nat) returns (failure: Option<EndReason>)
      requires Holds(s) && s.orchestrator.Idle? && s.inFlight != [] && s.inFlight[0] == credits
      modifies this
      ensures Holds(OrchCreditNext(s))
      ensures OrchCreditNext(s).orchestrator == if failure.Some? then Ended(failure.value) else Credited(credits)
    {
      if credits == 0 || credits > WINDOW {
        return Some(InvalidCredit);
      }
      var ok := Grant(credits);
      return if ok then None else Some(SessionOvergrant);
    }

    /** `send_terminal` is the orchestrator's send step: it ends the run for the same
        reason or queues the command, a consumed credit is put back when queueing
        fails, and putting it back cannot exceed the window. */
    method SendTerminal(ghost s: State, command: Command, writerOpen: bool, queued: nat)
      returns (failure: Option<EndReason>)
      requires Holds(s) && available <= WINDOW && s.orchestrator == Holding(command)
      requires s.writerOpen == writerOpen && |s.writer| == queued
      modifies this
      ensures Holds(OrchSendNext(s))
      ensures var t := OrchSendNext(s);
              if failure.Some? then t.orchestrator == Ended(failure.value) && t.writer == s.writer && t.sent == s.sent
              else t.orchestrator.Idle? && t.writer == s.writer + [command] && t.sent == s.sent + [command]
    {
      assert OrchSendNext(s) ==
             match SendFailure(s, command)
             case Some(reason) => Drop(s, command, reason)
             case None => Queued(s, command);
      hide OrchSendNext;
      if ended {
        return Some(InputEnded);
      }
      match command {
        case Input(chunk) =>
          if chunk == [] || |chunk| > CHUNK_BYTES {
            return Some(BadChunk);
          }
          failure := Consume();
          if failure.Some? {
            return;
          }
          failure := QueueInput(writerOpen, queued);
          if failure.Some? {
            var ok := Grant(1);
            assert ok;
          }
        case Eof =>
          failure := QueueInput(writerOpen, queued);
          if failure.None? {
            ended := true;
          }
      }
    }
  }
}
