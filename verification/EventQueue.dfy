/** The userspace queue between the ring-buffer callback and collection. */
module EventQueue {
  import opened Prelude

  const MAX_QUEUED_EVENTS: nat := 4096
  const MAX_EVENTS_PER_COLLECTION: nat := 4096
  const WRAP: nat := U64_MAX + 1

  /** A decoded record, or the error from decoding it. */
  datatype Item = Event(id: nat) | Fault(id: nat)

  /** The queue with its two wrapping loss counters, and the history of what was
      received, queued, dropped, handed out, and given up by a failed poll. */
  datatype Stream = Stream(
    queue: seq<Item>,
    drops: nat,
    decodeFailures: nat,
    received: seq<Item>,
    queued: seq<Item>,
    dropped: nat,
    handed: seq<Item>,
    lost: seq<Item>)

  const INITIAL := Stream([], 0, 0, [], [], 0, [], [])

  /** The ring-buffer callback. */
  function Callback(s: Stream, item: Item): (r: Stream) {
    var counted := s.(received := s.received + [item],
                      decodeFailures := if item.Fault? then (s.decodeFailures + 1) % WRAP else s.decodeFailures);
    if |s.queue| < MAX_QUEUED_EVENTS
    then counted.(queue := s.queue + [item], queued := s.queued + [item])
    else counted.(drops := (s.drops + 1) % WRAP, dropped := s.dropped + 1)
  }

  function Arrive(s: Stream, batch: seq<Item>): (r: Stream) {
    if batch == [] then s else Callback(Arrive(s, batch[..|batch| - 1]), batch[|batch| - 1])
  }

  /** What draining takes off the queue: a fault alone, or events up to the next
      fault or the limit. */
  datatype Drained = Drained(queue: seq<Item>, collected: seq<Item>, fault: Option<Item>)

  function Drain(queue: seq<Item>, collected: seq<Item>, max: nat): (r: Drained) {
    if |collected| >= max || queue == [] then Drained(queue, collected, None)
    else if queue[0].Event? then Drain(queue[1..], collected + [queue[0]], max)
    else if collected == [] then Drained(queue[1..], collected, Some(queue[0]))
    else Drained(queue, collected, None)
  }

  /** `drain_events` as written. */
  method DrainEvents(queue: seq<Item>, collected: seq<Item>, max: nat) returns (r: Drained)
    ensures r == Drain(queue, collected, max)
  {
    var q, c := queue, collected;
    while |c| < max
      invariant Drain(q, c, max) == Drain(queue, collected, max)
      decreases |q|
    {
      if q == [] {
        break;
      }
      var item := q[0];
      q := q[1..];
      if item.Event? {
        c := c + [item];
      } else if c == [] {
        return Drained(q, c, Some(item));
      } else {
        assert [item] + q[0..] == [item] + q;
        q := [item] + q;
        break;
      }
    }
    return Drained(q, c, None);
  }

  /** One turn of the collection loop: a poll that runs callbacks, or fails. */
  datatype Poll = Polled(batch: seq<Item>) | PollFailed

  datatype Collected = Events(events: seq<Item>) | Surfaced(fault: Item) | Failed | InvalidBounds

  /** The collection loop over the polls that fit before the deadline. */
  function CollectFrom(s: Stream, collected: seq<Item>, max: nat, polls: seq<Poll>): (r: (Stream, Collected))
    decreases |polls|
  {
    if |collected| >= max || polls == [] then (s.(handed := s.handed + collected), Events(collected))
    else
      match polls[0]
      case PollFailed => (s.(lost := s.lost + collected), Failed)
      case Polled(batch) =>
        var arrived := Arrive(s, batch);
        var d := Drain(arrived.queue, collected, max);
        if d.fault.Some?
        then (arrived.(queue := d.queue, handed := arrived.handed + [d.fault.value]), Surfaced(d.fault.value))
        else CollectFrom(arrived.(queue := d.queue), d.collected, max, polls[1..])
  }

  function Collect(s: Stream, max: nat, polls: seq<Poll>): (r: (Stream, Collected)) {
    if 1 <= max <= MAX_EVENTS_PER_COLLECTION then CollectFrom(s, [], max, polls) else (s, InvalidBounds)
  }

  datatype Action = Receive(item: Item) | CollectCall(max: nat, polls: seq<Poll>)

  function Apply(s: Stream, a: Action): (r: Stream) {
    match a
    case Receive(item) => Callback(s, item)
    case CollectCall(max, polls) => Collect(s, max, polls).0
  }

  function Run(actions: seq<Action>): (s: Stream) {
    if actions == [] then INITIAL else Apply(Run(actions[..|actions| - 1]), actions[|actions| - 1])
  }

  // ---- Conservation --------------------------------------------------------

  function Faults(items: seq<Item>): (n: nat) {
    if items == [] then 0 else Faults(items[..|items| - 1]) + (if items[|items| - 1].Fault? then 1 else 0)
  }

  /** Everything queued has left through the front or is still there; `collected`
      is what a collection in progress has in hand. */
  ghost predicate Conserved(s: Stream, collected: seq<Item>) {
    && |s.queued| == |s.handed| + |s.lost| + |collected| + |s.queue|
    && (s.lost == [] ==> s.queued == s.handed + collected + s.queue)
    && |s.queued| + s.dropped == |s.received|
    && |s.queue| <= MAX_QUEUED_EVENTS
    && s.drops == s.dropped % WRAP && s.decodeFailures == Faults(s.received) % WRAP
  }

  lemma FaultsAppend(items: seq<Item>, item: Item)
    ensures Faults(items + [item]) == Faults(items) + (if item.Fault? then 1 else 0)
  {
    assert (items + [item])[..|items|] == items;
  }

  lemma WrapNext(n: nat)
    ensures (n % WRAP + 1) % WRAP == (n + 1) % WRAP
  {
  }

  lemma CallbackKeeps(s: Stream, item: Item, collected: seq<Item>)
    requires Conserved(s, collected)
    ensures Conserved(Callback(s, item), collected)
  {
    FaultsAppend(s.received, item);
    WrapNext(Faults(s.received));
    WrapNext(s.dropped);
    hide Faults;
    assert s.handed + collected + s.queue + [item] == s.handed + collected + (s.queue + [item]);
  }

  lemma {:induction false} ArriveKeeps(s: Stream, batch: seq<Item>, collected: seq<Item>)
    requires Conserved(s, collected)
    ensures Conserved(Arrive(s, batch), collected)
    ensures Arrive(s, batch).lost == s.lost && Arrive(s, batch).handed == s.handed
  {
    hide Conserved;
    if batch != [] {
      ArriveKeeps(s, batch[..|batch| - 1], collected);
      CallbackKeeps(Arrive(s, batch[..|batch| - 1]), batch[|batch| - 1], collected);
    }
  }

  /** Nothing more can be taken with these events in hand. */
  predicate Dry(queue: seq<Item>, collected: seq<Item>) {
    queue == [] || (queue[0].Fault? && collected != [])
  }

  /** Draining keeps order and loses nothing: what it took, then the queue, is
      what was there. It takes events up to the next fault, the limit or the end of
      the queue, and no less; a fault surfaces exactly when it comes first and no
      event is in hand. */
  lemma {:induction false} DrainKeepsOrder(queue: seq<Item>, collected: seq<Item>, max: nat)
    ensures var d := Drain(queue, collected, max);
            && (d.fault.None? ==> d.collected + d.queue == collected + queue)
            && (d.fault.Some? ==>
                  collected == d.collected == [] && queue == [d.fault.value] + d.queue && d.fault.value.Fault?)
            && collected <= d.collected && |d.collected| <= (if |collected| > max then |collected| else max)
            && (forall i | |collected| <= i < |d.collected| :: d.collected[i].Event?)
            && |d.queue| <= |queue|
            && (d.fault.Some? <==> collected == [] && max > 0 && queue != [] && queue[0].Fault?)
            && (d.fault.None? ==> |d.collected| >= max || Dry(d.queue, d.collected))
    decreases |queue|
  {
    if |collected| < max && queue != [] && queue[0].Event? {
      DrainKeepsOrder(queue[1..], collected + [queue[0]], max);
      assert collected + [queue[0]] + queue[1..] == collected + queue;
    }
  }

  lemma DrainedKeeps(s: Stream, collected: seq<Item>, max: nat)
    requires Conserved(s, collected)
    ensures var d := Drain(s.queue, collected, max);
            if d.fault.Some? then Conserved(s.(queue := d.queue, handed := s.handed + [d.fault.value]), [])
            else Conserved(s.(queue := d.queue), d.collected)
  {
    DrainKeepsOrder(s.queue, collected, max);
    var d := Drain(s.queue, collected, max);
    hide Drain, Faults;
    if d.fault.Some? {
      assert s.handed + [] + ([d.fault.value] + d.queue) == s.handed + [d.fault.value] + [] + d.queue;
    } else {
      assert s.handed + (collected + s.queue) == s.handed + collected + s.queue;
      assert s.handed + (d.collected + d.queue) == s.handed + d.collected + d.queue;
      assert |d.collected + d.queue| == |collected + s.queue|;
    }
  }

  lemma {:induction false} CollectKeeps(s: Stream, collected: seq<Item>, max: nat, polls: seq<Poll>)
    requires Conserved(s, collected)
    ensures Conserved(CollectFrom(s, collected, max, polls).0, [])
    decreases |polls|
  {
    if |collected| >= max || polls == [] {
      assert s.handed + collected + [] + s.queue == s.handed + collected + s.queue;
    } else if polls[0].Polled? {
      var arrived := Arrive(s, polls[0].batch);
      var d := Drain(arrived.queue, collected, max);
      hide Conserved, Arrive, Drain;
      ArriveKeeps(s, polls[0].batch, collected);
      DrainedKeeps(arrived, collected, max);
      if d.fault.None? {
        CollectKeeps(arrived.(queue := d.queue), d.collected, max, polls[1..]);
      }
    }
  }

  lemma {:induction false} EveryRunKeeps(actions: seq<Action>)
    ensures Conserved(Run(actions), [])
  {
    if actions != [] {
      var front, a := actions[..|actions| - 1], actions[|actions| - 1];
      EveryRunKeeps(front);
      hide Conserved, Callback, CollectFrom;
      match a {
        case Receive(item) => CallbackKeeps(Run(front), item, []);
        case CollectCall(max, polls) => CollectKeeps(Run(front), [], max, polls);
      }
    }
  }

  // ---- What a collection takes ---------------------------------------------

  lemma {:induction false} ArriveQueues(s: Stream, batch: seq<Item>)
    ensures var t := Arrive(s, batch);
            && s.queued <= t.queued && t.queue == s.queue + t.queued[|s.queued|..]
            && t.received == s.received + batch
  {
    if batch != [] {
      ArriveQueues(s, batch[..|batch| - 1]);
      var t := Arrive(s, batch[..|batch| - 1]);
      var item := batch[|batch| - 1];
      assert (t.queued + [item])[|s.queued|..] == t.queued[|s.queued|..] + [item];
    } else {
      assert s.queue + [] == s.queue;
    }
  }

  /** What was in hand, in the queue, and has been queued since. */
  ghost function Available(s: Stream, collected: seq<Item>, t: Stream): (r: seq<Item>)
    requires s.queued <= t.queued
  {
    collected + s.queue + t.queued[|s.queued|..]
  }

  lemma AvailableLater(s: Stream, collected: seq<Item>, mid: Stream, taken: seq<Item>, t: Stream)
    requires s.queued <= mid.queued <= t.queued
    requires taken + mid.queue == collected + (s.queue + mid.queued[|s.queued|..])
    ensures Available(mid, taken, t) == Available(s, collected, t)
  {
    assert t.queued[|s.queued|..] == mid.queued[|s.queued|..] + t.queued[|mid.queued|..];
  }

  /** Everything the polls bring. */
  function Brought(polls: seq<Poll>): (r: seq<Item>) {
    if polls == [] then []
    else (if polls[0].Polled? then polls[0].batch else []) + Brought(polls[1..])
  }

  /** The longest run of events, up to the limit, from what was there and what arrived;
      or the fault that came first, alone. Everything behind stays queued, in order.
      Unless it is full the collection goes on to the last poll. */
  ghost predicate TakesAll(s: Stream, collected: seq<Item>, max: nat, polls: seq<Poll>, t: Stream, r: Collected) {
    && s.queued <= t.queued
    && match r
       case Events(events) =>
         && events + t.queue == Available(s, collected, t)
         && collected <= events && (forall i | |collected| <= i < |events| :: events[i].Event?)
         && |events| <= (if |collected| > max then |collected| else max)
         && (|events| >= max || polls == [] || Dry(t.queue, events))
         && (|events| < max ==> t.received == s.received + Brought(polls))
       case Surfaced(fault) => fault.Fault? && collected == [] && [fault] + t.queue == Available(s, [], t)
       case _ => false
  }

  lemma TakesNothing(s: Stream, collected: seq<Item>, max: nat, polls: seq<Poll>)
    requires |collected| >= max || polls == []
    ensures TakesAll(s, collected, max, polls, s.(handed := s.handed + collected), Events(collected))
  {
    assert collected + s.queue + [] == collected + s.queue && s.received + [] == s.received;
  }

  lemma TakesFault(s: Stream, arrived: Stream, d: Drained, max: nat, polls: seq<Poll>, t: Stream)
    requires s.queued <= arrived.queued && arrived.queue == s.queue + arrived.queued[|s.queued|..]
    requires d.fault.Some? && d.fault.value.Fault? && arrived.queue == [d.fault.value] + d.queue
    requires t.queue == d.queue && t.queued == arrived.queued
    ensures TakesAll(s, [], max, polls, t, Surfaced(d.fault.value))
  {
    assert [] + s.queue + t.queued[|s.queued|..] == s.queue + t.queued[|s.queued|..];
  }

  lemma TakesMore(s: Stream, collected: seq<Item>, max: nat, polls: seq<Poll>, mid: Stream, taken: seq<Item>,
                  t: Stream, r: Collected)
    requires polls != [] && polls[0].Polled? && |collected| < max
    requires s.queued <= mid.queued && mid.received == s.received + polls[0].batch
    requires taken + mid.queue == collected + (s.queue + mid.queued[|s.queued|..])
    requires collected <= taken && |taken| <= max
    requires forall i | |collected| <= i < |taken| :: taken[i].Event?
    requires |taken| >= max || Dry(mid.queue, taken)
    requires TakesAll(mid, taken, max, polls[1..], t, r)
    requires polls[1..] == [] ==> t.queue == mid.queue && r == Events(taken)
    requires r.Surfaced? ==> collected == []
    ensures TakesAll(s, collected, max, polls, t, r)
  {
    hide Dry;
    AvailableLater(s, collected, mid, taken, t);
    hide Available;
    assert s.received + polls[0].batch + Brought(polls[1..]) == s.received + Brought(polls);
    if r.Events? {
      forall i | |collected| <= i < |r.events| ensures r.events[i].Event? {
        assert i < |taken| ==> r.events[i] == taken[i];
      }
    }
  }

  /** With polls that all succeed a collection takes all it can. */
  lemma {:induction false} CollectTakesAll(s: Stream, collected: seq<Item>, max: nat, polls: seq<Poll>)
    requires AllPolled(polls)
    ensures var (t, r) := CollectFrom(s, collected, max, polls); TakesAll(s, collected, max, polls, t, r)
    decreases |polls|
  {
    hide TakesAll;
    if |collected| >= max || polls == [] {
      TakesNothing(s, collected, max, polls);
    } else {
      var arrived := Arrive(s, polls[0].batch);
      var d := Drain(arrived.queue, collected, max);
      ArriveQueues(s, polls[0].batch);
      DrainKeepsOrder(arrived.queue, collected, max);
      hide Arrive, Drain, Dry;
      var (t, r) := CollectFrom(s, collected, max, polls);
      if d.fault.Some? {
        TakesFault(s, arrived, d, max, polls, t);
      } else {
        var mid := arrived.(queue := d.queue);
        assert AllPolled(polls[1..]);
        CollectTakesAll(mid, d.collected, max, polls[1..]);
        StaysDry(mid, d.collected, max, polls[1..]);
        NoFaultInHand(mid, d.collected, max, polls[1..], t, r);
        TakesMore(s, collected, max, polls, mid, d.collected, t, r);
      }
    }
  }

  lemma NoFaultInHand(s: Stream, collected: seq<Item>, max: nat, polls: seq<Poll>, t: Stream, r: Collected)
    requires TakesAll(s, collected, max, polls, t, r)
    ensures r.Surfaced? ==> collected == []
  {
  }

  /** Without further polls nothing changes. */
  lemma StaysDry(s: Stream, collected: seq<Item>, max: nat, polls: seq<Poll>)
    ensures polls == [] ==>
              var (t, r) := CollectFrom(s, collected, max, polls); t.queue == s.queue && r == Events(collected)
  {
  }

  /** A record is dropped exactly when 4096 queued ones have neither been handed out nor
      lost. */
  lemma DroppedExactly(actions: seq<Action>, item: Item)
    ensures var s, t := Run(actions), Run(actions + [Receive(item)]);
            if |s.queued| == |s.handed| + |s.lost| + 4096
            then t.queued == s.queued && t.dropped == s.dropped + 1
            else t.queued == s.queued + [item] && t.dropped == s.dropped
  {
    EveryRunKeeps(actions);
    assert (actions + [Receive(item)])[..|actions|] == actions;
  }

  // ---- What is lost --------------------------------------------------------

  predicate AllPolled(polls: seq<Poll>) {
    forall j | 0 <= j < |polls| :: polls[j].Polled?
  }

  /** Poll `k` is the first to fail, and the same call cut off before it would have
      come back with some events, though not with all it may take. */
  predicate FailsInHand(s: Stream, collected: seq<Item>, max: nat, polls: seq<Poll>, k: nat) {
    && k < |polls| && polls[k].PollFailed? && AllPolled(polls[..k])
    && var r := CollectFrom(s, collected, max, polls[..k]).1;
       r.Events? && 0 < |r.events| < max
  }

  /** After a first poll that brought no fault, the question is the same one about
      the polls that are left. */
  lemma FailsLater(s: Stream, collected: seq<Item>, max: nat, polls: seq<Poll>, k: nat)
    requires |collected| < max && polls != [] && polls[0].Polled?
    ensures var arrived := Arrive(s, polls[0].batch);
            var d := Drain(arrived.queue, collected, max);
            FailsInHand(s, collected, max, polls, k) <==>
            d.fault.None? && k > 0 && FailsInHand(arrived.(queue := d.queue), d.collected, max, polls[1..], k - 1)
  {
    if 0 < k < |polls| {
      hide Arrive, Drain;
      var before, rest := polls[..k], polls[1..][..k - 1];
      assert before[0] == polls[0] && before[1..] == rest;
      assert AllPolled(before) <==> AllPolled(rest) by {
        assert forall j | 0 <= j < |rest| :: rest[j] == before[j + 1];
      }
    }
  }

  /** A collection gives up events exactly when a poll fails while some are in
      hand, and then exactly those; nothing else loses an event. */
  lemma {:induction false} LostExactly(s: Stream, collected: seq<Item>, max: nat, polls: seq<Poll>)
    ensures CollectFrom(s, collected, max, polls).0.lost != s.lost <==>
            exists k: nat :: FailsInHand(s, collected, max, polls, k)
    ensures forall k: nat | FailsInHand(s, collected, max, polls, k) ::
              var r := CollectFrom(s, collected, max, polls);
              r.1 == Failed && r.0.lost == s.lost + CollectFrom(s, collected, max, polls[..k]).1.events
    decreases |polls|
  {
    if |collected| >= max || polls == [] {
      assert forall k: nat :: !FailsInHand(s, collected, max, polls, k);
    } else if polls[0].PollFailed? {
      assert forall k: nat | 0 < k < |polls| :: polls[..k][0] == polls[0];
      assert polls[..0] == [];
      assert FailsInHand(s, collected, max, polls, 0) <==> collected != [];
    } else {
      LostLater(s, collected, max, polls);
    }
  }

  lemma {:induction false} LostLater(s: Stream, collected: seq<Item>, max: nat, polls: seq<Poll>)
    requires |collected| < max && polls != [] && polls[0].Polled?
    ensures CollectFrom(s, collected, max, polls).0.lost != s.lost <==>
            exists k: nat :: FailsInHand(s, collected, max, polls, k)
    ensures forall k: nat | FailsInHand(s, collected, max, polls, k) ::
              var r := CollectFrom(s, collected, max, polls);
              r.1 == Failed && r.0.lost == s.lost + CollectFrom(s, collected, max, polls[..k]).1.events
    decreases |polls|, 0
  {
    var arrived := Arrive(s, polls[0].batch);
    var d := Drain(arrived.queue, collected, max);
    var next := arrived.(queue := d.queue);
    ArriveSame(s, polls[0].batch);
    hide Arrive, Drain, FailsInHand;
    forall k: nat
      ensures FailsInHand(s, collected, max, polls, k) <==>
              d.fault.None? && k > 0 && FailsInHand(next, d.collected, max, polls[1..], k - 1)
    {
      FailsLater(s, collected, max, polls, k);
    }
    if d.fault.None? {
      LostExactly(next, d.collected, max, polls[1..]);
      forall k: nat | FailsInHand(next, d.collected, max, polls[1..], k)
        ensures FailsInHand(s, collected, max, polls, k + 1)
      {
        assert k + 1 - 1 == k;
      }
      forall k: nat | FailsInHand(s, collected, max, polls, k)
        ensures CollectFrom(s, collected, max, polls[..k]) == CollectFrom(next, d.collected, max, polls[1..][..k - 1])
      {
        InHandBounds(s, collected, max, polls, k);
        assert polls[..k][0] == polls[0] && polls[..k][1..] == polls[1..][..k - 1];
      }
    }
  }

  lemma InHandBounds(s: Stream, collected: seq<Item>, max: nat, polls: seq<Poll>, k: nat)
    requires FailsInHand(s, collected, max, polls, k)
    ensures k < |polls| && CollectFrom(s, collected, max, polls[..k]).1.Events?
  {
  }

  /** The calls of a run that lose something, told from the polls. */
  ghost predicate LossyCall(actions: seq<Action>, i: nat) {
    && i < |actions| && actions[i].CollectCall? && 1 <= actions[i].max <= MAX_EVENTS_PER_COLLECTION
    && exists k: nat :: FailsInHand(Run(actions[..i]), [], actions[i].max, actions[i].polls, k)
  }

  lemma {:induction false} RunLosesExactly(actions: seq<Action>)
    ensures Run(actions).lost != [] <==> exists i: nat :: LossyCall(actions, i)
  {
    if actions != [] {
      var n := |actions| - 1;
      var front, a := actions[..n], actions[n];
      RunLosesExactly(front);
      forall i: nat | i < n ensures LossyCall(actions, i) <==> LossyCall(front, i) {
        assert front[..i] == actions[..i];
      }
      LastLoses(front, a);
      assert LossyCall(actions, n) <==> Run(actions).lost != Run(front).lost;
      LostGrows(Run(front), a);
      hide LossyCall, Run;
    }
  }

  lemma LastLoses(front: seq<Action>, a: Action)
    ensures Apply(Run(front), a).lost != Run(front).lost <==>
            && a.CollectCall? && 1 <= a.max <= MAX_EVENTS_PER_COLLECTION
            && exists k: nat :: FailsInHand(Run(front), [], a.max, a.polls, k)
  {
    if a.CollectCall? {
      LostExactly(Run(front), [], a.max, a.polls);
    }
    hide Run, CollectFrom, FailsInHand;
  }

  lemma LostGrows(s: Stream, a: Action)
    ensures s.lost <= Apply(s, a).lost
  {
    if a.CollectCall? {
      LostExactly(s, [], a.max, a.polls);
    }
    hide CollectFrom, FailsInHand;
  }

  /** In every run what was handed out, in order, followed by the queue is what
      was queued, exactly when no call's poll failed while it had events in hand;
      what was queued and what was dropped is what was received. */
  lemma QueueConserved(actions: seq<Action>)
    ensures var s := Run(actions);
            && (s.handed + s.queue == s.queued <==> forall i: nat :: !LossyCall(actions, i))
            && |s.queued| + s.dropped == |s.received| && |s.queue| <= MAX_QUEUED_EVENTS
            && s.drops == s.dropped % WRAP && s.decodeFailures == Faults(s.received) % WRAP
  {
    EveryRunKeeps(actions);
    RunLosesExactly(actions);
    hide Run, Faults, LossyCall;
    var s := Run(actions);
    assert s.handed + [] + s.queue == s.handed + s.queue;
  }

  /** In particular nothing is lost in a run whose polls never fail. */
  lemma ReliablePollsLoseNothing(actions: seq<Action>)
    requires forall i | 0 <= i < |actions| && actions[i].CollectCall? :: AllPolled(actions[i].polls)
    ensures Run(actions).handed + Run(actions).queue == Run(actions).queued
  {
    hide Run, CollectFrom;
    assert forall i: nat :: !LossyCall(actions, i);
    QueueConserved(actions);
  }

  lemma {:induction false} ArriveSame(s: Stream, batch: seq<Item>)
    ensures Arrive(s, batch).lost == s.lost && Arrive(s, batch).handed == s.handed
  {
    if batch != [] {
      ArriveSame(s, batch[..|batch| - 1]);
    }
  }

  /** What a caller gets: events only, in queue order and within the limit; or one
      fault with nothing else taken. */
  lemma {:induction false} HandedOut(s: Stream, collected: seq<Item>, max: nat, polls: seq<Poll>)
    requires |collected| <= max && forall i | 0 <= i < |collected| :: collected[i].Event?
    ensures var r := CollectFrom(s, collected, max, polls);
            match r.1
            case Events(events) =>
              && r.0.handed == s.handed + events && collected <= events && |events| <= max
              && forall i | 0 <= i < |events| :: events[i].Event?
            case Surfaced(fault) => r.0.handed == s.handed + [fault] && collected == [] && fault.Fault?
            case Failed => r.0.handed == s.handed
            case InvalidBounds => false
    decreases |polls|
  {
    if |collected| < max && polls != [] && polls[0].Polled? {
      var arrived := Arrive(s, polls[0].batch);
      ArriveSame(s, polls[0].batch);
      var d := Drain(arrived.queue, collected, max);
      DrainKeepsOrder(arrived.queue, collected, max);
      hide Arrive, Drain;
      if d.fault.None? {
        HandedOut(arrived.(queue := d.queue), d.collected, max, polls[1..]);
      }
    }
  }

  /** There are such calls: whenever an event heads the queue, a collection that
      could take more than is there loses it to a failed second poll. */
  lemma FailedPollLoses(s: Stream, max: nat, more: seq<Poll>)
    requires s.queue != [] && s.queue[0].Event? && |s.queue| < max <= MAX_EVENTS_PER_COLLECTION
    ensures FailsInHand(s, [], max, [Polled([]), PollFailed] + more, 1)
  {
    var polls := [Polled([]), PollFailed] + more;
    var first, rest := [s.queue[0]], s.queue[1..];
    var d := Drain(s.queue, [], max);
    assert [] + first == first;
    assert d == Drain(rest, first, max);
    DrainKeepsOrder(rest, first, max);
    assert |d.collected + d.queue| == |first + rest|;
    var one := polls[..1];
    assert one == [Polled([])] && one[1..] == [] && polls[1] == PollFailed && AllPolled(one);
    assert Arrive(s, []) == s;
    hide Drain, Arrive;
    assert CollectFrom(s, [], max, one) == CollectFrom(s.(queue := d.queue), d.collected, max, one[1..]);
  }

  // ---- The stream object ---------------------------------------------------

  class EventStream {
    var queue: seq<Item>
    var drops: nat
    var decodeFailures: nat
    ghost var received: seq<Item>
    ghost var queued: seq<Item>
    ghost var dropped: nat
    ghost var handed: seq<Item>
    ghost var lost: seq<Item>

    ghost function View(): (s: Stream)
      reads this
    {
      Stream(queue, drops, decodeFailures, received, queued, dropped, handed, lost)
    }

    constructor ()
      ensures View() == INITIAL
    {
      queue, drops, decodeFailures := [], 0, 0;
      received, queued, dropped, handed, lost := [], [], 0, [], [];
    }

    method OnRecord(item: Item)
      modifies this
      ensures View() == Callback(old(View()), item)
    {
      received := received + [item];
      if item.Fault? {
        decodeFailures := (decodeFailures + 1) % WRAP;
      }
      if |queue| < MAX_QUEUED_EVENTS {
        queue, queued := queue + [item], queued + [item];
      } else {
        drops, dropped := (drops + 1) % WRAP, dropped + 1;
      }
    }

    /** One poll: the callbacks it runs. */
    method OnPoll(batch: seq<Item>)
      modifies this
      ensures View() == Arrive(old(View()), batch)
    {
      for i := 0 to |batch|
        invariant View() == Arrive(old(View()), batch[..i])
      {
        assert batch[..i + 1][..i] == batch[..i];
        OnRecord(batch[i]);
      }
      assert batch[..|batch|] == batch;
    }

    /** `collect` as written, over the polls that fit before its deadline. */
    method CollectEvents(max: nat, polls: seq<Poll>) returns (r: Collected)
      modifies this
      ensures (View(), r) == Collect(old(View()), max, polls)
    {
      hide Arrive, Drain;
      if !(1 <= max <= MAX_EVENTS_PER_COLLECTION) {
        return InvalidBounds;
      }
      var collected, i := [], 0;
      assert polls[0..] == polls;
      while |collected| < max && i < |polls|
        invariant 0 <= i <= |polls|
        invariant CollectFrom(View(), collected, max, polls[i..]) == CollectFrom(old(View()), [], max, polls)
        decreases |polls| - i
      {
        assert polls[i..][0] == polls[i] && polls[i..][1..] == polls[i + 1..];
        if polls[i].PollFailed? {
          lost := lost + collected;
          return Failed;
        }
        OnPoll(polls[i].batch);
        var d := DrainEvents(queue, collected, max);
        queue := d.queue;
        if d.fault.Some? {
          handed := handed + [d.fault.value];
          return Surfaced(d.fault.value);
        }
        collected := d.collected;
        i := i + 1;
      }
      handed := handed + collected;
      return Events(collected);
    }
  }
}
