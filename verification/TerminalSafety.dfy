/** What every run of the credited input protocol keeps: credit conservation,
    order, and wake-ups. */
module TerminalSafety {
  import opened TerminalInput

  // ---- Counting ------------------------------------------------------------

  lemma {:induction false} InputsConcat(a: seq<Command>, b: seq<Command>)
    ensures Inputs(a + b) == Inputs(a) + Inputs(b)
  {
    if b == [] {
      assert a + b == a;
    } else {
      InputsConcat(a, b[..|b| - 1]);
      assert (a + b)[..|a + b| - 1] == a + b[..|b| - 1];
    }
  }

  lemma InputsOne(c: Command)
    ensures Inputs([c]) == if c.Input? then 1 else 0
  {
    assert [c][..0] == [];
  }

  lemma InputsAppend(a: seq<Command>, c: Command)
    ensures Inputs(a + [c]) == Inputs(a) + (if c.Input? then 1 else 0)
  {
    InputsConcat(a, [c]);
    InputsOne(c);
  }

  lemma InputsUncons(a: seq<Command>)
    requires a != []
    ensures Inputs(a) == (if a[0].Input? then 1 else 0) + Inputs(a[1..])
  {
    assert a == [a[0]] + a[1..];
    InputsConcat([a[0]], a[1..]);
    InputsOne(a[0]);
  }

  lemma InputsPrefix(a: seq<Command>, n: nat)
    requires n <= |a|
    ensures Inputs(a[..n]) <= Inputs(a)
  {
    assert a == a[..n] + a[n..];
    InputsConcat(a[..n], a[n..]);
  }

  lemma {:induction false} InputsAll(a: seq<Command>)
    requires Eof !in a
    ensures Inputs(a) == |a|
  {
    if a != [] {
      InputsAll(a[..|a| - 1]);
      assert a[|a| - 1] in a;
    }
  }

  lemma {:induction false} SumAppend(a: seq<nat>, n: nat)
    ensures Sum(a + [n]) == Sum(a) + n
  {
    if a == [] {
      assert a + [n] == [n];
    } else {
      SumAppend(a[1..], n);
      assert (a + [n])[1..] == a[1..] + [n];
    }
  }

  // ---- The invariant -------------------------------------------------------

  function PumpHolds(p: Pump): (n: nat) {
    if p.Offering? && p.command.Input? then 1 else 0
  }

  function OrchestratorHolds(o: Orchestrator): (n: nat) {
    if o.Holding? && o.command.Input? then 1 else 0
  }

  /** A grant the session has accepted and the gate has not. */
  function NotYetPassed(o: Orchestrator): (n: nat) {
    match o
    case Credited(n) => n
    case Granting(n, _) => n
    case _ => 0
  }

  /** Session credits are the gate's, plus one for each input in the pump's
      hands, in the command queue or in the orchestrator's hands, plus grants on
      their way to the gate, plus inputs given up when an actor stopped. */
  ghost predicate Conserved(available: nat, gate: nat, pump: Pump, queue: seq<Command>, o: Orchestrator, lost: nat) {
    available == gate + PumpHolds(pump) + Inputs(queue) + OrchestratorHolds(o) + NotYetPassed(o) + lost
  }

  /** What the pump has seen of the gate is still true: only the pump takes. */
  ghost predicate PumpView(pump: Pump, gate: nat) {
    match pump
    case Polling(hasCredit) => hasCredit ==> gate > 0
    case Read(chunk) => gate > 0 && 1 <= |chunk| <= CHUNK_BYTES
    case Consuming(chunk, current) => 1 <= current <= gate && 1 <= |chunk| <= CHUNK_BYTES
    case Offering(command) => Sendable(command)
    case Stopped(reason) => reason != WithoutCredit
    case _ => true
  }

  predicate Sendable(c: Command) {
    c.Input? ==> 1 <= |c.chunk| <= CHUNK_BYTES
  }

  ghost predicate AllSendable(commands: seq<Command>) {
    forall i | 0 <= i < |commands| :: Sendable(commands[i])
  }

  /** What the orchestrator has seen: a grant in hand fits, only the pump could
      have lowered the gate since, and no error that would break the law. */
  ghost predicate OrchestratorView(o: Orchestrator, gate: nat) {
    match o
    case Credited(n) => 1 <= n
    case Granting(n, current) => 1 <= n && gate <= current && current + n <= WINDOW
    case Holding(command) => Sendable(command)
    case Ended(reason) => !Miscounted(reason)
    case _ => true
  }

  /** The errors that two disagreeing credit counters would cause. */
  predicate Miscounted(reason: EndReason) {
    reason.GateRefused? || reason.NoCredit? || reason.InputEnded? || reason.BadChunk?
  }

  /** The errors that only a guest granting too much can cause. */
  predicate Overgranted(reason: EndReason) {
    reason.SessionOvergrant? || reason.WriterFull?
  }

  ghost predicate Credit(available: nat, gate: nat, pump: Pump, queue: seq<Command>, o: Orchestrator, lost: nat) {
    && Conserved(available, gate, pump, queue, o, lost) && available <= WINDOW
    && PumpView(pump, gate) && OrchestratorView(o, gate) && AllSendable(queue)
  }

  /** End of file is the last thing the pump produces. */
  ghost predicate EofLast(commands: seq<Command>) {
    forall i | 0 <= i < |commands| - 1 :: commands[i] != Eof
  }

  function Held(p: Pump): (r: seq<Command>) {
    if p.Offering? then [p.command] else []
  }

  function InHand(o: Orchestrator): (r: seq<Command>) {
    if o.Holding? then [o.command] else []
  }

  /** What the pump produced is what left its hands, then what it holds; once
      stopped it may have dropped the last. */
  ghost predicate PumpLine(produced: seq<Command>, passed: seq<Command>, held: seq<Command>, stopped: bool) {
    && EofLast(produced) && passed <= produced
    && (!stopped ==> produced == passed + held && (Eof in produced ==> held == [Eof]))
  }

  ghost predicate OrchestratorLine(taken: seq<Command>, sent: seq<Command>, inHand: seq<Command>, over: bool) {
    sent <= taken && (!over ==> taken == sent + inHand)
  }

  ghost predicate WriterLine(sent: seq<Command>, written: seq<Command>, writer: seq<Command>, open: bool) {
    written <= sent && (open ==> sent == written + writer)
  }

  /** One line of commands from the pump to the wire, in order. */
  ghost predicate OrderInv(s: State) {
    && PumpLine(s.produced, s.taken + s.queue, Held(s.pump), s.pump.Stopped?)
    && OrchestratorLine(s.taken, s.sent, InHand(s.orchestrator), s.orchestrator.Ended?)
    && WriterLine(s.sent, s.written, s.writer, s.writerOpen)
    && (s.ended ==> HasEof(s.sent))
  }

  predicate HasEof(commands: seq<Command>) {
    Eof in commands
  }

  /** Everything granted is in flight, in the session's hands, or was spent on an
      input that was sent; an honest guest has granted no more than the window
      beyond what it received. */
  ghost predicate Window(available: nat, sent: seq<Command>, inFlight: seq<nat>, granted: nat,
                         written: seq<Command>, received: nat, honest: bool, over: bool) {
    && available + Inputs(sent) + Sum(inFlight) <= granted
    && (!over ==> available + Inputs(sent) + Sum(inFlight) == granted)
    && received <= |written|
    && (honest ==> granted <= WINDOW + Inputs(written[..received]))
  }

  ghost predicate NotOvergranted(honest: bool, o: Orchestrator) {
    honest && o.Ended? ==> !Overgranted(o.reason)
  }

  /** Nobody sleeps through a grant or through shutdown. */
  ghost predicate Wake(pump: Pump, gate: nat, wake: nat, o: Orchestrator, stopping: bool, stopper: Stopper) {
    && (pump == Polling(false) && gate > 0 ==> wake > 0 || o == Notifying || o == Ended(WakeFailed))
    && (stopping <==> stopper != Running)
    && (stopping ==> pump.Woken? || pump.Stopped? || wake > 0 || stopper == Raised)
  }

  ghost predicate Inv(s: State) {
    && Credit(s.available, s.gate, s.pump, s.queue, s.orchestrator, s.lost) && !s.queueWasFull
    && OrderInv(s)
    && Window(s.available, s.sent, s.inFlight, s.granted, s.written, s.received, s.honest, s.orchestrator.Ended?)
    && NotOvergranted(s.honest, s.orchestrator)
    && Wake(s.pump, s.gate, s.wake, s.orchestrator, s.stopping, s.stopper)
  }

  // ---- Order ---------------------------------------------------------------

  /** Before the end of a line whose end of file is last, everything is input. */
  lemma NoEofBefore(a: seq<Command>, c: Command, line: seq<Command>)
    requires EofLast(line) && a + [c] <= line
    ensures Eof !in a
  {
    forall i | 0 <= i < |a| ensures a[i] != Eof {
      assert line[i] == (a + [c])[i] == a[i];
    }
  }

  lemma Produces(produced: seq<Command>, passed: seq<Command>, c: Command)
    requires PumpLine(produced, passed, [], false)
    ensures PumpLine(produced + [c], passed, [c], false)
  {
    assert produced == passed;
    assert Eof !in produced;
  }

  lemma Passes(produced: seq<Command>, passed: seq<Command>, c: Command)
    requires PumpLine(produced, passed, [c], false)
    ensures PumpLine(produced, passed + [c], [], c.Eof?)
    ensures !HasEof(passed)
  {
    NoEofBefore(passed, c, produced);
    assert passed + [c] + [] == produced;
    assert [c][0] == c;
  }

  lemma Stops(produced: seq<Command>, passed: seq<Command>, held: seq<Command>, stopped: bool)
    requires PumpLine(produced, passed, held, stopped)
    ensures PumpLine(produced, passed, [], true)
  {
  }

  lemma Takes(taken: seq<Command>, sent: seq<Command>, c: Command)
    requires OrchestratorLine(taken, sent, [], false)
    ensures OrchestratorLine(taken + [c], sent, [c], false)
  {
  }

  lemma Sends(taken: seq<Command>, sent: seq<Command>, c: Command)
    requires OrchestratorLine(taken, sent, [c], false)
    ensures OrchestratorLine(taken, sent + [c], [], false) && OrchestratorLine(taken, sent, [], true)
  {
    assert sent + [c] + [] == taken;
  }

  /** What is still to be sent shows that nothing before it was the end. */
  lemma NotEndedYet(produced: seq<Command>, taken: seq<Command>, queue: seq<Command>, held: seq<Command>,
                    stopped: bool, sent: seq<Command>, c: Command)
    requires PumpLine(produced, taken + queue, held, stopped)
    requires OrchestratorLine(taken, sent, [c], false)
    ensures !HasEof(sent)
  {
    assert taken + queue == sent + [c] + queue;
    assert sent + [c] <= produced;
    NoEofBefore(sent, c, produced);
  }

  lemma Ends(taken: seq<Command>, sent: seq<Command>, inHand: seq<Command>, over: bool)
    requires OrchestratorLine(taken, sent, inHand, over)
    ensures OrchestratorLine(taken, sent, [], true)
  {
  }

  lemma Queues(sent: seq<Command>, written: seq<Command>, writer: seq<Command>, c: Command)
    requires WriterLine(sent, written, writer, true)
    ensures WriterLine(sent + [c], written, writer + [c], true)
    ensures c.Eof? ==> HasEof(sent + [c])
  {
    assert (sent + [c])[|sent|] == c;
  }

  lemma Writes(sent: seq<Command>, written: seq<Command>, writer: seq<Command>)
    requires WriterLine(sent, written, writer, true) && writer != []
    ensures WriterLine(sent, written + [writer[0]], writer[1..], true) && WriterLine(sent, written, writer[1..], false)
  {
    assert written + [writer[0]] + writer[1..] == written + writer;
  }

  // ---- Bounds --------------------------------------------------------------

  lemma QueueCount(taken: seq<Command>, queue: seq<Command>)
    requires !HasEof(taken + queue)
    ensures Inputs(queue) == |queue|
  {
    forall i | 0 <= i < |queue| ensures queue[i] != Eof {
      assert (taken + queue)[|taken| + i] == queue[i];
    }
    InputsAll(queue);
  }

  lemma WriterCount(sent: seq<Command>, written: seq<Command>, writer: seq<Command>, received: nat)
    requires WriterLine(sent, written, writer, true) && received <= |written|
    requires !HasEof(sent)
    ensures |writer| + Inputs(written[..received]) <= Inputs(sent)
  {
    QueueCount(written, writer);
    InputsConcat(written, writer);
    InputsPrefix(written, received);
  }

  lemma ReceivedCount(sent: seq<Command>, written: seq<Command>, writer: seq<Command>, open: bool, received: nat)
    requires WriterLine(sent, written, writer, open) && received <= |written|
    ensures Inputs(written[..received]) <= Inputs(sent)
  {
    assert written[..received] == sent[..received];
    InputsPrefix(sent, received);
  }

  lemma SumUncons(a: seq<nat>)
    requires a != []
    ensures Sum(a) == a[0] + Sum(a[1..])
  {
  }

  lemma AllSendableAppend(a: seq<Command>, c: Command)
    requires AllSendable(a) && Sendable(c)
    ensures AllSendable(a + [c])
  {
  }

  lemma AllSendableUncons(a: seq<Command>)
    requires AllSendable(a) && a != []
    ensures AllSendable(a[1..]) && Sendable(a[0])
  {
  }

  // ---- Credits and wake-ups, one change at a time --------------------------

  /** A pump that neither was woken nor has stopped may go anywhere but to sleep. */
  lemma WakeElsewhere(p: Pump, q: Pump, gate: nat, wake: nat, o: Orchestrator, stopping: bool, stopper: Stopper)
    requires Wake(p, gate, wake, o, stopping, stopper) && !p.Woken? && !p.Stopped? && q != Polling(false)
    ensures Wake(q, gate, wake, o, stopping, stopper)
  {
  }

  /** An orchestrator that owes no notification may do anything. */
  lemma WakeUnowed(p: Pump, gate: nat, wake: nat, o: Orchestrator, o': Orchestrator, stopping: bool, stopper: Stopper)
    requires Wake(p, gate, wake, o, stopping, stopper) && o != Notifying && o != Ended(WakeFailed)
    ensures Wake(p, gate, wake, o', stopping, stopper)
  {
  }

  lemma WakeTaken(p: Pump, q: Pump, gate: nat, wake: nat, o: Orchestrator, stopping: bool, stopper: Stopper)
    requires Wake(p, gate, wake, o, stopping, stopper) && p.Consuming? && q.Offering? && gate > 0
    ensures Wake(q, gate - 1, wake, o, stopping, stopper)
  {
  }

  /** A grant to an empty gate owes a notification; one to a gate that had credit
      left finds the pump awake or its wake-up already sent. */
  lemma WakeGranted(p: Pump, gate: nat, n: nat, wake: nat, o: Orchestrator, stopping: bool, stopper: Stopper)
    requires Wake(p, gate, wake, o, stopping, stopper) && o.Granting?
    ensures Wake(p, gate + n, wake, if gate == 0 then Notifying else Idle, stopping, stopper)
  {
  }

  lemma CreditPump(available: nat, gate: nat, p: Pump, q: Pump, queue: seq<Command>, o: Orchestrator, lost: nat)
    requires Credit(available, gate, p, queue, o, lost) && PumpHolds(p) == PumpHolds(q) && PumpView(q, gate)
    ensures Credit(available, gate, q, queue, o, lost)
  {
    hide Inputs, AllSendable;
  }

  lemma CreditTaken(available: nat, gate: nat, p: Pump, queue: seq<Command>, o: Orchestrator, lost: nat)
    requires Credit(available, gate, p, queue, o, lost) && p.Consuming?
    ensures gate > 0 && Credit(available, gate - 1, Offering(Input(p.chunk)), queue, o, lost)
  {
    hide Inputs, AllSendable;
  }

  lemma CreditOver(available: nat, gate: nat, p: Pump, queue: seq<Command>, o: Orchestrator, reason: EndReason,
      lost: nat)
    requires Credit(available, gate, p, queue, o, lost) && NotYetPassed(o) == 0 && !Miscounted(reason)
    ensures Credit(available, gate, p, queue, Ended(reason), lost + OrchestratorHolds(o))
  {
    hide Inputs, AllSendable;
  }

  lemma CreditAccepted(available: nat, gate: nat, p: Pump, queue: seq<Command>, n: nat, lost: nat)
    requires Credit(available, gate, p, queue, Idle, lost) && 1 <= n && available + n <= WINDOW
    ensures Credit(available + n, gate, p, queue, Credited(n), lost)
  {
    hide Inputs, AllSendable;
  }

  lemma CreditPassed(available: nat, gate: nat, p: Pump, queue: seq<Command>, o: Orchestrator, lost: nat)
    requires Credit(available, gate, p, queue, o, lost) && o.Granting?
    ensures o.current + o.credits <= WINDOW
    ensures Credit(available, gate + o.credits, p, queue, if o.current == 0 then Notifying else Idle, lost)
    ensures Credit(available, gate, p, queue, Granting(o.credits, gate), lost)
  {
    hide Inputs, AllSendable;
  }

  lemma CreditSpent(available: nat, gate: nat, p: Pump, queue: seq<Command>, c: Command, lost: nat)
    requires Credit(available, gate, p, queue, Holding(c), lost)
    ensures Sendable(c)
    ensures c.Input? ==> available > 0 && Credit(available - 1, gate, p, queue, Idle, lost)
    ensures c.Eof? ==> Credit(available, gate, p, queue, Idle, lost)
  {
    hide Inputs, AllSendable;
  }

  lemma CreditOffered(available: nat, gate: nat, c: Command, queue: seq<Command>, o: Orchestrator, lost: nat)
    requires Credit(available, gate, Offering(c), queue, o, lost)
    ensures Credit(available, gate, if c.Eof? then Stopped(EndOfInput) else Top, queue + [c], o, lost)
    ensures Credit(available, gate, Stopped(Requested), queue, o, lost + (if c.Input? then 1 else 0))
    ensures Credit(available, gate, Stopped(QueueClosed), queue, o, lost + (if c.Input? then 1 else 0))
    ensures Inputs(queue) <= WINDOW
  {
    InputsAppend(queue, c);
    AllSendableAppend(queue, c);
    hide Inputs, AllSendable;
  }

  /** A grant arriving: an honest guest's always fits the session's window. */
  lemma WindowAccepted(available: nat, sent: seq<Command>, inFlight: seq<nat>, granted: nat, written: seq<Command>,
                       received: nat, honest: bool, writer: seq<Command>, open: bool)
    requires Window(available, sent, inFlight, granted, written, received, honest, false) && inFlight != []
    requires WriterLine(sent, written, writer, open)
    ensures Window(available + inFlight[0], sent, inFlight[1..], granted, written, received, honest, false)
    ensures Window(available, sent, inFlight[1..], granted, written, received, honest, true)
    ensures honest ==> available + inFlight[0] <= WINDOW
  {
    SumUncons(inFlight);
    ReceivedCount(sent, written, writer, open, received);
    hide Inputs, Sum;
  }

  /** A command sent: an honest guest's grants always fit the writer's queue. */
  lemma WindowSpent(available: nat, sent: seq<Command>, inFlight: seq<nat>, granted: nat, written: seq<Command>,
                    received: nat, honest: bool, writer: seq<Command>, open: bool, c: Command)
    requires Window(available, sent, inFlight, granted, written, received, honest, false)
    requires WriterLine(sent, written, writer, open) && !HasEof(sent)
    ensures c.Input? && available > 0 ==>
              Window(available - 1, sent + [c], inFlight, granted, written, received, honest, false)
    ensures c.Eof? ==> Window(available, sent + [c], inFlight, granted, written, received, honest, false)
    ensures Window(available, sent, inFlight, granted, written, received, honest, true)
    ensures honest && open ==> |writer| < QUEUE_DEPTH
  {
    InputsAppend(sent, c);
    if open {
      WriterCount(sent, written, writer, received);
    }
    hide Inputs, Sum;
  }

  // ---- Every step keeps the invariant --------------------------------------

  lemma PumpLoadKeeps(s: State)
    requires Inv(s)
    ensures Inv(PumpLoadNext(s))
  {
    hide Inputs, Sum, PumpLine, OrchestratorLine, WriterLine, AllSendable, HasEof;
  }

  lemma PumpWakeKeeps(s: State)
    requires Inv(s)
    ensures Inv(PumpWakeNext(s))
  {
    hide Inputs, Sum, PumpLine, OrchestratorLine, WriterLine, AllSendable, HasEof;
  }

  lemma PumpCheckStopKeeps(s: State)
    requires Inv(s)
    ensures Inv(PumpCheckStopNext(s))
  {
    hide Inputs, Sum, PumpLine, OrchestratorLine, WriterLine, AllSendable, HasEof;
    Stops(s.produced, s.taken + s.queue, Held(s.pump), s.pump.Stopped?);
  }

  lemma PumpAgainKeeps(s: State, failed: bool)
    requires Inv(s)
    ensures Inv(PumpAgainNext(s, failed))
  {
    hide Inputs, Sum, PumpLine, OrchestratorLine, WriterLine, AllSendable, HasEof;
    Stops(s.produced, s.taken + s.queue, Held(s.pump), s.pump.Stopped?);
  }

  /** A pump with credit at hand looks at what it read, or goes round, or stops. */
  lemma PumpGoesOn(s: State, p: Pump)
    requires Inv(s) && s.pump == Polling(true)
    requires (p.Read? && 1 <= |p.chunk| <= CHUNK_BYTES) || p.Top? || p == Stopped(ReadFailed)
    ensures Inv(s.(pump := p))
  {
    PumpSees(s);
    hide Credit, Window, Wake, PumpLine, OrchestratorLine, WriterLine, HasEof, Inputs, Sum;
    CreditPump(s.available, s.gate, s.pump, p, s.queue, s.orchestrator, s.lost);
    WakeElsewhere(s.pump, p, s.gate, s.wake, s.orchestrator, s.stopping, s.stopper);
    Stops(s.produced, s.taken + s.queue, [], false);
  }

  lemma PumpSeesEnd(s: State)
    requires Inv(s) && s.pump == Polling(true)
    ensures Inv(s.(pump := Offering(Eof), produced := s.produced + [Eof]))
  {
    hide Credit, Window, Wake, PumpLine, OrchestratorLine, WriterLine, HasEof, Inputs, Sum;
    CreditPump(s.available, s.gate, s.pump, Offering(Eof), s.queue, s.orchestrator, s.lost);
    WakeElsewhere(s.pump, Offering(Eof), s.gate, s.wake, s.orchestrator, s.stopping, s.stopper);
    Produces(s.produced, s.taken + s.queue, Eof);
  }

  lemma PumpStdinKeeps(s: State, result: StdinResult)
    requires Inv(s)
    ensures Inv(PumpStdinNext(s, result))
  {
    hide Inv;
    if s.pump.Polling? && s.pump.hasCredit {
      match result {
        case Data(chunk) =>
          if 1 <= |chunk| <= CHUNK_BYTES {
            PumpGoesOn(s, Read(chunk));
          }
        case Nothing => PumpSeesEnd(s);
        case Interrupted => PumpGoesOn(s, Top);
        case Failed => PumpGoesOn(s, Stopped(ReadFailed));
      }
    }
  }

  lemma PumpLoadConsumeKeeps(s: State)
    requires Inv(s)
    ensures Inv(PumpLoadConsumeNext(s))
  {
    hide Inputs, Sum, PumpLine, OrchestratorLine, WriterLine, AllSendable, HasEof;
  }

  lemma PumpCasKeeps(s: State, spurious: bool)
    requires Inv(s)
    ensures Inv(PumpCasNext(s, spurious))
  {
    hide Credit, Window, Wake, PumpLine, OrchestratorLine, WriterLine, HasEof, Inputs, Sum;
    if s.pump.Consuming? {
      var p := Consuming(s.pump.chunk, s.gate);
      CreditTaken(s.available, s.gate, s.pump, s.queue, s.orchestrator, s.lost);
      assert PumpView(p, s.gate) by { PumpSees(s); }
      CreditPump(s.available, s.gate, s.pump, p, s.queue, s.orchestrator, s.lost);
      WakeTaken(s.pump, Offering(Input(s.pump.chunk)), s.gate, s.wake, s.orchestrator, s.stopping, s.stopper);
      WakeElsewhere(s.pump, p, s.gate, s.wake, s.orchestrator, s.stopping, s.stopper);
      Produces(s.produced, s.taken + s.queue, Input(s.pump.chunk));
    }
  }

  lemma PumpSees(s: State)
    requires Inv(s)
    ensures PumpView(s.pump, s.gate)
  {
  }

  lemma PumpOfferKeeps(s: State)
    requires Inv(s)
    ensures Inv(PumpOfferNext(s))
  {
    hide Credit, Window, Wake, PumpLine, OrchestratorLine, WriterLine, HasEof, Inputs, Sum;
    if s.pump.Offering? {
      var c := s.pump.command;
      var t := PumpOfferNext(s);
      CreditOffered(s.available, s.gate, c, s.queue, s.orchestrator, s.lost);
      Stops(s.produced, s.taken + s.queue, [c], false);
      Passes(s.produced, s.taken + s.queue, c);
      QueueCount(s.taken, s.queue);
      assert |s.queue| < QUEUE_DEPTH;
      assert s.taken + (s.queue + [c]) == s.taken + s.queue + [c];
      WakeElsewhere(s.pump, t.pump, s.gate, s.wake, s.orchestrator, s.stopping, s.stopper);
    }
  }

  lemma GuestGrantKeeps(s: State, credits: nat)
    requires Inv(s)
    ensures Inv(GuestGrantNext(s, credits))
  {
    hide Inputs, Sum, PumpLine, OrchestratorLine, WriterLine, AllSendable, HasEof;
    SumAppend(s.inFlight, credits);
  }

  lemma GuestReceiveKeeps(s: State)
    requires Inv(s)
    ensures Inv(GuestReceiveNext(s))
  {
    hide Inputs, Sum, PumpLine, OrchestratorLine, WriterLine, AllSendable, HasEof;
    if s.received < |s.written| {
      var seen := s.written[..s.received + 1];
      InputsPrefix(seen, s.received);
      assert seen[..s.received] == s.written[..s.received];
    }
  }

  /** A grant that is refused ends the run. */
  lemma CreditRefused(s: State, reason: EndReason)
    requires Inv(s) && s.orchestrator.Idle? && s.inFlight != []
    requires reason.InvalidCredit? || (reason.SessionOvergrant? && s.available + s.inFlight[0] > WINDOW)
    ensures Inv(s.(inFlight := s.inFlight[1..], orchestrator := Ended(reason)))
  {
    hide Credit, Window, Wake, PumpLine, OrchestratorLine, WriterLine, HasEof, Inputs, Sum;
    WindowAccepted(s.available, s.sent, s.inFlight, s.granted, s.written, s.received, s.honest, s.writer, s.writerOpen);
    CreditOver(s.available, s.gate, s.pump, s.queue, Idle, reason, s.lost);
    Ends(s.taken, s.sent, [], false);
    WakeUnowed(s.pump, s.gate, s.wake, Idle, Ended(reason), s.stopping, s.stopper);
  }

  lemma CreditTakenUp(s: State, n: nat)
    requires Inv(s) && s.orchestrator.Idle? && s.inFlight != [] && n == s.inFlight[0]
    requires 1 <= n && s.available + n <= WINDOW
    ensures Inv(s.(inFlight := s.inFlight[1..], available := s.available + n, orchestrator := Credited(n)))
  {
    hide Credit, Window, Wake, PumpLine, OrchestratorLine, WriterLine, HasEof, Inputs, Sum;
    WindowAccepted(s.available, s.sent, s.inFlight, s.granted, s.written, s.received, s.honest, s.writer, s.writerOpen);
    CreditAccepted(s.available, s.gate, s.pump, s.queue, n, s.lost);
    WakeUnowed(s.pump, s.gate, s.wake, Idle, Credited(n), s.stopping, s.stopper);
  }

  lemma OrchCreditKeeps(s: State)
    requires Inv(s)
    ensures Inv(OrchCreditNext(s))
  {
    hide Inv;
    if s.orchestrator.Idle? && s.inFlight != [] {
      var n := s.inFlight[0];
      if n == 0 || n > WINDOW {
        CreditRefused(s, InvalidCredit);
      } else if s.available + n > WINDOW {
        CreditRefused(s, SessionOvergrant);
      } else {
        CreditTakenUp(s, n);
      }
    }
  }

  lemma OrchGateLoadKeeps(s: State)
    requires Inv(s)
    ensures Inv(OrchGateLoadNext(s))
  {
    hide Inputs, Sum, PumpLine, OrchestratorLine, WriterLine, AllSendable, HasEof;
  }

  lemma GateTakesGrant(s: State)
    requires Inv(s) && s.orchestrator.Granting? && s.gate == s.orchestrator.current
    ensures var n := s.orchestrator.credits;
            Inv(s.(gate := s.gate + n, orchestrator := if s.gate == 0 then Notifying else Idle))
  {
    hide Credit, Window, Wake, PumpLine, OrchestratorLine, WriterLine, HasEof, Inputs, Sum;
    CreditPassed(s.available, s.gate, s.pump, s.queue, s.orchestrator, s.lost);
    WakeGranted(s.pump, s.gate, s.orchestrator.credits, s.wake, s.orchestrator, s.stopping, s.stopper);
  }

  lemma GateSeenAgain(s: State)
    requires Inv(s) && s.orchestrator.Granting?
    ensures s.orchestrator.current + s.orchestrator.credits <= WINDOW
    ensures Inv(s.(orchestrator := Granting(s.orchestrator.credits, s.gate)))
  {
    hide Credit, Window, Wake, PumpLine, OrchestratorLine, WriterLine, HasEof, Inputs, Sum;
    CreditPassed(s.available, s.gate, s.pump, s.queue, s.orchestrator, s.lost);
    var again := Granting(s.orchestrator.credits, s.gate);
    WakeUnowed(s.pump, s.gate, s.wake, s.orchestrator, again, s.stopping, s.stopper);
  }

  lemma OrchGateCasKeeps(s: State, spurious: bool)
    requires Inv(s)
    ensures Inv(OrchGateCasNext(s, spurious))
  {
    hide Inv;
    if s.orchestrator.Granting? {
      GateSeenAgain(s);
      if s.gate == s.orchestrator.current {
        GateTakesGrant(s);
      }
    }
  }

  lemma Notified(s: State, wake: nat, o: Orchestrator)
    requires Inv(s) && s.orchestrator.Notifying?
    requires (o == Idle && wake > 0) || (o == Ended(WakeFailed) && wake == s.wake)
    ensures Inv(s.(wake := wake, orchestrator := o))
  {
    hide Inputs, Sum, PumpLine, OrchestratorLine, WriterLine, AllSendable, HasEof;
    Ends(s.taken, s.sent, InHand(s.orchestrator), s.orchestrator.Ended?);
  }

  lemma OrchNotifyKeeps(s: State, delivered: bool)
    requires Inv(s)
    ensures Inv(OrchNotifyNext(s, delivered))
  {
    hide Inv;
    if s.orchestrator.Notifying? {
      if delivered {
        Notified(s, s.wake + 1, Idle);
      } else {
        Notified(s, s.wake, Ended(WakeFailed));
      }
    }
  }

  lemma OrchTakeKeeps(s: State)
    requires Inv(s)
    ensures Inv(OrchTakeNext(s))
  {
    hide Inputs, Sum, PumpLine, OrchestratorLine, WriterLine, AllSendable, HasEof;
    if s.orchestrator.Idle? && s.queue != [] {
      assert (s.taken + [s.queue[0]]) + s.queue[1..] == s.taken + s.queue;
      Takes(s.taken, s.sent, s.queue[0]);
      InputsUncons(s.queue);
      AllSendableUncons(s.queue);
    }
  }

  lemma OrchNoMoreKeeps(s: State)
    requires Inv(s)
    ensures Inv(OrchNoMoreNext(s))
  {
    hide Inputs, Sum, PumpLine, OrchestratorLine, WriterLine, AllSendable, HasEof;
  }

  lemma OrchSendKeeps(s: State)
    requires Inv(s)
    ensures Inv(OrchSendNext(s))
  {
    hide Credit, Window, Wake, PumpLine, OrchestratorLine, WriterLine, HasEof, Inputs, Sum;
    if s.orchestrator.Holding? {
      var c, t := s.orchestrator.command, OrchSendNext(s);
      NotEndedYet(s.produced, s.taken, s.queue, Held(s.pump), s.pump.Stopped?, s.sent, c);
      assert !s.ended;
      CreditSpent(s.available, s.gate, s.pump, s.queue, c, s.lost);
      CreditOver(s.available, s.gate, s.pump, s.queue, Holding(c), WriterStopped, s.lost);
      CreditOver(s.available, s.gate, s.pump, s.queue, Holding(c), WriterFull, s.lost);
      WindowSpent(s.available, s.sent, s.inFlight, s.granted, s.written, s.received, s.honest, s.writer,
          s.writerOpen, c);
      Sends(s.taken, s.sent, c);
      WakeUnowed(s.pump, s.gate, s.wake, Holding(c), t.orchestrator, s.stopping, s.stopper);
      if s.writerOpen {
        Queues(s.sent, s.written, s.writer, c);
      }
    }
  }

  lemma OrchOtherKeeps(s: State)
    requires Inv(s)
    ensures Inv(OrchOtherNext(s))
  {
    hide Inputs, Sum, PumpLine, OrchestratorLine, WriterLine, AllSendable, HasEof;
    Ends(s.taken, s.sent, InHand(s.orchestrator), s.orchestrator.Ended?);
  }

  lemma CloseQueueKeeps(s: State)
    requires Inv(s)
    ensures Inv(CloseQueueNext(s))
  {
    hide Inputs, Sum, PumpLine, OrchestratorLine, WriterLine, AllSendable, HasEof;
  }

  lemma WriterSendKeeps(s: State, delivered: bool)
    requires Inv(s)
    ensures Inv(WriterSendNext(s, delivered))
  {
    hide Inputs, Sum, PumpLine, OrchestratorLine, WriterLine, AllSendable, HasEof;
    if s.writerOpen && s.writer != [] {
      Writes(s.sent, s.written, s.writer);
      assert (s.written + [s.writer[0]])[..s.received] == s.written[..s.received];
    }
  }

  lemma RaiseStopKeeps(s: State)
    requires Inv(s)
    ensures Inv(RaiseStopNext(s))
  {
    hide Inputs, Sum, PumpLine, OrchestratorLine, WriterLine, AllSendable, HasEof;
  }

  lemma SignalStopKeeps(s: State)
    requires Inv(s)
    ensures Inv(SignalStopNext(s))
  {
    hide Inputs, Sum, PumpLine, OrchestratorLine, WriterLine, AllSendable, HasEof;
  }

  lemma StepKeeps(s: State, step: Step)
    requires Inv(s)
    ensures Inv(Apply(s, step))
  {
    hide Inv;
    match step {
      case PumpLoad => PumpLoadKeeps(s);
      case PumpWake => PumpWakeKeeps(s);
      case PumpCheckStop => PumpCheckStopKeeps(s);
      case PumpAgain(failed) => PumpAgainKeeps(s, failed);
      case PumpStdin(result) => PumpStdinKeeps(s, result);
      case PumpLoadConsume => PumpLoadConsumeKeeps(s);
      case PumpCas(spurious) => PumpCasKeeps(s, spurious);
      case PumpOffer => PumpOfferKeeps(s);
      case GuestGrant(credits) => GuestGrantKeeps(s, credits);
      case GuestReceive => GuestReceiveKeeps(s);
      case OrchCredit => OrchCreditKeeps(s);
      case OrchGateLoad => OrchGateLoadKeeps(s);
      case OrchGateCas(spurious) => OrchGateCasKeeps(s, spurious);
      case OrchNotify(delivered) => OrchNotifyKeeps(s, delivered);
      case OrchTake => OrchTakeKeeps(s);
      case OrchNoMore => OrchNoMoreKeeps(s);
      case OrchSend => OrchSendKeeps(s);
      case OrchOther => OrchOtherKeeps(s);
      case CloseQueue => CloseQueueKeeps(s);
      case WriterSend(delivered) => WriterSendKeeps(s, delivered);
      case RaiseStop => RaiseStopKeeps(s);
      case SignalStop => SignalStopKeeps(s);
    }
  }

  lemma EmptyLines(e: seq<Command>)
    requires e == []
    ensures PumpLine(e, e + e, e, false) && OrchestratorLine(e, e, e, false) && WriterLine(e, e, e, true)
    ensures Inputs(e) == 0 && e[..0] == e && e + e == e
  {
  }

  ghost predicate Starts(s: State) {
    && s.pump.Top? && s.orchestrator.Idle? && s.stopper.Running? && !s.stopping && s.writerOpen && !s.ended && s.honest
    && !s.queueWasFull && s.gate == s.wake == s.available == s.received == s.granted == s.lost == 0
    && |s.queue| == |s.writer| == |s.written| == |s.produced| == |s.taken| == |s.sent| == |s.inFlight| == 0
  }

  lemma StartOrder(s: State)
    requires Starts(s)
    ensures OrderInv(s)
  {
    var e := s.queue;
    EmptyLines(e);
    hide PumpLine, OrchestratorLine, WriterLine, HasEof;
    assert s.taken + s.queue == e + e;
  }

  lemma StartCounts(s: State)
    requires Starts(s)
    ensures Credit(s.available, s.gate, s.pump, s.queue, s.orchestrator, s.lost)
    ensures Window(s.available, s.sent, s.inFlight, s.granted, s.written, s.received, s.honest, false)
  {
    EmptyLines(s.queue);
    EmptyLines(s.sent);
  }

  lemma StartHolds(s: State)
    requires Starts(s)
    ensures Inv(s)
  {
    StartOrder(s);
    StartCounts(s);
    hide OrderInv, Credit, Window;
  }

  lemma InitialHolds()
    ensures Inv(INITIAL)
  {
    hide Inv;
    StartHolds(INITIAL);
  }

  lemma {:induction false} EveryRunKeeps(steps: seq<Step>)
    ensures Inv(Run(steps))
  {
    hide Inv, Apply;
    if steps == [] {
      InitialHolds();
    } else {
      EveryRunKeeps(steps[..|steps| - 1]);
      StepKeeps(Run(steps[..|steps| - 1]), steps[|steps| - 1]);
    }
  }

  // ---- What every run shows ------------------------------------------------

  /** The credit invariant: in every reachable state the two counters agree, so
      the gate never refuses a grant the session accepted, the pump never finds
      itself without credit, the session never lacks credit for a command, and
      the command queue is never full. */
  lemma CreditsConserved(steps: seq<Step>)
    ensures var s := Run(steps);
            && Conserved(s.available, s.gate, s.pump, s.queue, s.orchestrator, s.lost)
            && s.gate <= s.available <= WINDOW
            && !(s.orchestrator.Ended? && Miscounted(s.orchestrator.reason))
            && s.pump != Stopped(WithoutCredit)
            && !s.queueWasFull && Inputs(s.queue) <= WINDOW
  {
    hide Run, OrderInv, Window, Wake, Inputs;
    EveryRunKeeps(steps);
  }

  /** A guest that returns credit only for inputs it received never overruns the
      session's window and never fills the writer's queue, end of file included. */
  lemma HonestGuestNeverRefused(steps: seq<Step>)
    requires Run(steps).honest
    ensures var s := Run(steps);
            && !(s.orchestrator.Ended? && Overgranted(s.orchestrator.reason))
            && s.granted <= WINDOW + Inputs(s.sent)
  {
    EveryRunKeeps(steps);
    var s := Run(steps);
    ReceivedCount(s.sent, s.written, s.writer, s.writerOpen, s.received);
    hide Run, Credit, Wake, Inputs, Sum;
  }

  /** Commands reach the wire in the order the pump produced them, none skipped,
      and end of file after everything else; while every actor runs, none is
      missing between the pump and the wire. */
  lemma WireFollowsPump(steps: seq<Step>)
    ensures var s := Run(steps);
            && s.written <= s.sent <= s.taken <= s.produced && EofLast(s.produced)
            && (!s.pump.Stopped? && !s.orchestrator.Ended? && s.writerOpen ==>
                  s.produced == s.written + s.writer + InHand(s.orchestrator) + s.queue + Held(s.pump))
  {
    EveryRunKeeps(steps);
    var s := Run(steps);
    hide Run, Credit, Window, Wake, EofLast;
    assert s.taken <= s.taken + s.queue;
  }

  /** No lost wake-up: a pump waiting on the wake pipe alone has no credit, a
      byte in the pipe, or a granter about to write one (or failing to, which ends
      the run). No lost shutdown: once the stop is signalled, a waiting pump has a
      byte in the pipe, and that byte leads it to the flag. */
  lemma NoLostWakeUp(steps: seq<Step>)
    ensures var s := Run(steps);
            && (s.pump == Polling(false) ==>
                  s.gate == 0 || s.wake > 0 || s.orchestrator == Notifying || s.orchestrator == Ended(WakeFailed))
            && (s.stopper == Signalled && s.pump.Polling? ==>
                  s.wake > 0 && Apply(Apply(s, PumpWake), PumpCheckStop).pump == Stopped(Requested))
  {
    EveryRunKeeps(steps);
    hide Run, Credit, Window, OrderInv;
  }

  /** Exactly when the session refuses a grant: in any reachable state, when the
      guest's grants up to and including it exceed the window and the inputs sent
      to it so far. */
  lemma OvergrantRefusedExactly(steps: seq<Step>)
    requires Run(steps).orchestrator.Idle? && Run(steps).inFlight != []
    requires 1 <= Run(steps).inFlight[0] <= WINDOW
    ensures var s := Run(steps);
            OrchCreditNext(s).orchestrator == Ended(SessionOvergrant) <==>
            s.granted - Sum(s.inFlight[1..]) > WINDOW + Inputs(s.sent)
  {
    hide Run, Credit, OrderInv, Wake, Inputs, Sum;
    EveryRunKeeps(steps);
    SumUncons(Run(steps).inFlight);
  }
}
