/** What a run can spend on DNS queries within one window's length: exactly which
    sequences of names it can get admitted, and which counters it can overflow. */
module DnsBursts {
  import opened Prelude
  import opened DnsBudget
  import opened DnsLongest
  import Domain

  ghost predicate AllAskable(l: Limits, calls: seq<Call>) {
    forall i | 0 <= i < |calls| :: Askable(l, calls[i].name)
  }

  ghost predicate NamesAskable(l: Limits, log: seq<string>) {
    forall i | 0 <= i < |log| :: Askable(l, log[i])
  }

  lemma {:induction false} OctetBounds(l: Limits, log: seq<string>)
    requires Validated(l) && NamesAskable(l, log)
    ensures |log| <= OctetSum(log) <= 253 * |log|
  {
    hide Askable, Domain.Octets;
    if log != [] {
      OctetBounds(l, log[..|log| - 1]);
      AskableAtMost(l, log[|log| - 1]);
    }
  }

  lemma {:induction false} LogAskable(l: Limits, calls: seq<Call>)
    requires AllAskable(l, calls)
    ensures NamesAskable(l, Log(l, calls))
  {
    hide Askable, LastVerdict, After, Expired;
    if calls != [] {
      LogAskable(l, calls[..|calls| - 1]);
      assert Askable(l, calls[|calls| - 1].name);
    }
  }

  lemma {:induction false} HitsAskable(l: Limits, calls: seq<Call>, from: nat)
    requires AllAskable(l, calls)
    ensures NamesAskable(l, Hits(l, calls, from))
  {
    hide Askable, LastVerdict;
    if calls != [] {
      HitsAskable(l, calls[..|calls| - 1], from);
      assert Askable(l, calls[|calls| - 1].name);
    }
  }

  // ---- Bursts --------------------------------------------------------------

  /** These names, asked for at one moment. */
  function CallsAt(now: nat, log: seq<string>): (r: seq<Call>)
    ensures |r| == |log| && forall i | 0 <= i < |log| :: r[i] == Call(log[i], now)
  {
    seq(|log|, i requires 0 <= i < |log| => Call(log[i], now))
  }

  /** The log a query at `now` would be added to. */
  function Base(l: Limits, calls: seq<Call>, now: nat): (log: seq<string>) {
    if Expired(l, After(l, calls), now) then [] else Log(l, calls)
  }

  function Inside(l: Limits, from: nat, now: nat, log: seq<string>): (r: seq<string>) {
    if from <= now < from + l.window then log else []
  }

  lemma RolledStart(l: Limits, calls: seq<Call>, c: Call)
    ensures After(l, calls + [c]).start == Rolled(l, After(l, calls), c.now).start
  {
    assert (calls + [c])[..|calls|] == calls;
    hide Judge;
  }

  lemma OneMoreAdmitted(l: Limits, calls: seq<Call>, c: Call)
    requires Validated(l) && Within(l, Base(l, calls, c.now) + [c.name])
    ensures LastVerdict(l, calls + [c]).Admitted?
  {
    var all := calls + [c];
    assert all[..|all| - 1] == calls && all[|all| - 1] == c;
    hide Judge, OctetSum, LastVerdict, After, Log, Expired, Names, Labels;
    LastAdmittedExactly(l, all);
  }

  lemma StillOpen(l: Limits, calls: seq<Call>, c: Call)
    requires l.window > 0
    ensures !Expired(l, After(l, calls + [c]), c.now)
  {
    RolledStart(l, calls, c);
    hide After;
  }

  /** A query that fits is added to the log, and to the hits if it is inside. */
  lemma OneMore(l: Limits, calls: seq<Call>, c: Call, from: nat)
    requires Validated(l) && Within(l, Base(l, calls, c.now) + [c.name])
    ensures var all := calls + [c];
            && Base(l, all, c.now) == Base(l, calls, c.now) + [c.name]
            && Hits(l, all, from) == Hits(l, calls, from) + Inside(l, from, c.now, [c.name])
            && After(l, all).start == Rolled(l, After(l, calls), c.now).start
  {
    hide LastVerdict, After, Expired, Rolled, Within;
    var all := calls + [c];
    OneMoreAdmitted(l, calls, c);
    RolledStart(l, calls, c);
    StillOpen(l, calls, c);
    assert all[..|all| - 1] == calls && all[|all| - 1] == c;
  }

  lemma PrefixWithin(l: Limits, a: seq<string>, b: seq<string>)
    requires Within(l, a + b)
    ensures Within(l, a)
  {
    OctetSumConcat(a, b);
    assert forall x | x in a :: x in a + b;
    assert Names(a) <= Names(a + b) && Labels(a) <= Labels(a + b);
    SubsetSize(Names(a), Names(a + b));
    SubsetSize(Labels(a), Labels(a + b));
  }

  /** Any names that fit are all admitted at one moment. */
  lemma {:induction false} Burst(l: Limits, calls: seq<Call>, now: nat, log: seq<string>, from: nat)
    requires Validated(l) && Within(l, Base(l, calls, now) + log)
    ensures var all := calls + CallsAt(now, log);
            && Base(l, all, now) == Base(l, calls, now) + log
            && Hits(l, all, from) == Hits(l, calls, from) + Inside(l, from, now, log)
            && (log != [] ==> After(l, all).start == Rolled(l, After(l, calls), now).start)
    decreases |log|
  {
    hide Hits, Log, After, Base, CallsAt, Within;
    var all, base, before := calls + CallsAt(now, log), Base(l, calls, now), Hits(l, calls, from);
    if log == [] {
      assert all == calls && base + log == base && before + [] == before;
    } else {
      var init, last := log[..|log| - 1], log[|log| - 1];
      var front := calls + CallsAt(now, init);
      assert log == init + [last] && base + log == base + init + [last];
      PrefixWithin(l, base + init, [last]);
      Burst(l, calls, now, init, from);
      assert all == front + [Call(last, now)];
      OneMore(l, front, Call(last, now), from);
      assert before + Inside(l, from, now, init) + Inside(l, from, now, [last]) == before + Inside(l, from, now, log);
      StillRolled(l, calls, front, now, init);
    }
  }

  /** A window that a burst opened or found open is still open at that moment. */
  lemma StillRolled(l: Limits, calls: seq<Call>, front: seq<Call>, now: nat, log: seq<string>)
    requires Validated(l) && front == calls + CallsAt(now, log)
    requires log != [] ==> After(l, front).start == Rolled(l, After(l, calls), now).start
    ensures Rolled(l, After(l, front), now).start == Rolled(l, After(l, calls), now).start
  {
    if log == [] {
      assert front == calls;
    }
    hide After;
  }

  // ---- Two windows in one interval -----------------------------------------

  /** What a window can still admit after the query that opened it: everything, if
      that query was too long and refused; else what fits with it. */
  ghost predicate AfterOpener(l: Limits, log: seq<string>)
    requires Validated(l)
  {
    (SomeNameTooLong(l) && Within(l, log)) || exists opener :: Opens(l, opener, log)
  }

  ghost predicate Opens(l: Limits, opener: string, log: seq<string>) {
    Askable(l, opener) && Within(l, [opener] + log)
  }

  /** The first `k` names fit behind an opener, the others in a window of their own. */
  ghost predicate InTwo(l: Limits, log: seq<string>, k: nat)
    requires Validated(l)
  {
    k <= |log| && Within(l, log[k..]) && (k == 0 || (l.window >= 2 && AfterOpener(l, log[..k])))
  }

  /** A run gets exactly these names admitted within one window's length. */
  ghost predicate Spendable(l: Limits, log: seq<string>) {
    exists calls: seq<Call>, from: nat :: Spends(l, calls, from, log)
  }

  ghost predicate Spends(l: Limits, calls: seq<Call>, from: nat, log: seq<string>) {
    Ordered(calls) && AllAskable(l, calls) && Hits(l, calls, from) == log
  }

  // ---- Whatever fits in two can be spent -----------------------------------

  /** An opener, what its window can take at its end, and what the next one can take
      at its start. */
  function Script(l: Limits, opener: string, a: seq<string>, b: seq<string>): (calls: seq<Call>)
    requires l.window >= 2
  {
    [Call(opener, 0)] + CallsAt(l.window - 1, a) + CallsAt(l.window, b)
  }

  lemma ScriptOrdered(l: Limits, opener: string, a: seq<string>, b: seq<string>)
    requires l.window >= 2 && Askable(l, opener) && NamesAskable(l, a) && NamesAskable(l, b)
    ensures Ordered(Script(l, opener, a, b)) && AllAskable(l, Script(l, opener, a, b))
  {
    hide Askable;
  }

  /** What is left of an opener: itself if it was admitted, else nothing. */
  lemma Opened(l: Limits, opener: string, a: seq<string>)
    requires Validated(l) && l.window >= 2
    requires if Domain.Octets(opener) > l.maxQueryOctets then Within(l, a) else Within(l, [opener] + a)
    ensures var calls := [Call(opener, 0)];
            && Within(l, Base(l, calls, l.window - 1) + a) && After(l, calls).start == Some(0)
            && Hits(l, calls, l.window - 1) == []
  {
    var calls := [Call(opener, 0)];
    assert calls[..0] == [] && [] + calls == calls && [] + [opener] == [opener] && [] + a == a;
    RolledStart(l, [], Call(opener, 0));
    if Domain.Octets(opener) <= l.maxQueryOctets {
      hide Within, Domain.Octets;
      PrefixWithin(l, [opener], a);
      OneMore(l, [], Call(opener, 0), l.window - 1);
    } else {
      hide Within;
    }
  }

  /** The opener and the first burst: its names are the hits so far, and the next
      query opens a window. */
  lemma FirstBurst(l: Limits, opener: string, a: seq<string>)
    requires Validated(l) && l.window >= 2 && a != []
    requires if Domain.Octets(opener) > l.maxQueryOctets then Within(l, a) else Within(l, [opener] + a)
    ensures var calls := [Call(opener, 0)] + CallsAt(l.window - 1, a);
            Base(l, calls, l.window) == [] && Hits(l, calls, l.window - 1) == a
  {
    var from, first := l.window - 1, [Call(opener, 0)];
    Opened(l, opener, a);
    hide Hits, Log, After, CallsAt, Within;
    Burst(l, first, from, a, from);
    assert [] + a == a;
  }

  lemma ScriptParts(l: Limits, opener: string, a: seq<string>, b: seq<string>)
    requires l.window >= 2
    ensures Script(l, opener, a, b) == [Call(opener, 0)] + CallsAt(l.window - 1, a) + CallsAt(l.window, b)
    ensures Inside(l, l.window - 1, l.window, b) == b == [] + b
  {
  }

  lemma ScriptHits(l: Limits, opener: string, a: seq<string>, b: seq<string>)
    requires Validated(l) && l.window >= 2 && a != [] && Within(l, b)
    requires if Domain.Octets(opener) > l.maxQueryOctets then Within(l, a) else Within(l, [opener] + a)
    ensures Hits(l, Script(l, opener, a, b), l.window - 1) == a + b
  {
    hide *;
    FirstBurst(l, opener, a);
    ScriptParts(l, opener, a, b);
    Burst(l, [Call(opener, 0)] + CallsAt(l.window - 1, a), l.window, b, l.window - 1);
  }

  lemma OneWindowSpends(l: Limits, log: seq<string>)
    requires Validated(l) && NamesAskable(l, log) && Within(l, log)
    ensures Spendable(l, log)
  {
    hide Askable, Within, CallsAt, Hits;
    var calls := CallsAt(0, log);
    assert [] + calls == calls && [] + log == log;
    NoHitsBefore(l, [], 0);
    Burst(l, [], 0, log, 0);
    assert Spends(l, calls, 0, log);
  }

  lemma TwoWindowsSpend(l: Limits, log: seq<string>, k: nat)
    requires Validated(l) && NamesAskable(l, log) && InTwo(l, log, k) && k > 0
    ensures Spendable(l, log)
  {
    hide Askable, Within, Hits, Script, LongestName, Domain.Octets;
    var a, b := log[..k], log[k..];
    var opener: string;
    if SomeNameTooLong(l) && Within(l, a) {
      opener := LongestIsAskable(l);
    } else {
      opener :| Opens(l, opener, a);
      FitsOctets(l, opener, a);
    }
    ScriptOrdered(l, opener, a, b);
    ScriptHits(l, opener, a, b);
    assert Spends(l, Script(l, opener, a, b), l.window - 1, log);
  }

  lemma FitsOctets(l: Limits, opener: string, a: seq<string>)
    requires Within(l, [opener] + a)
    ensures OctetSum([opener] + a) == Domain.Octets(opener) + OctetSum(a) <= l.maxQueryOctets
  {
    OctetSumConcat([opener], a);
    assert [opener][..0] == [];
  }

  // ---- Whatever is spent fits in two ---------------------------------------

  lemma FirstFits(l: Limits, name: string)
    requires Validated(l) && Askable(l, name) && !SomeNameTooLong(l)
    ensures Within(l, [name])
  {
    AskableAtMost(l, name);
    assert [name][..0] == [];
    assert Names([name]) == {name} && Labels([name]) == {Domain.LeftmostLabel(name)};
  }

  lemma LastRolls(l: Limits, calls: seq<Call>)
    requires calls != []
    ensures var init, last := calls[..|calls| - 1], calls[|calls| - 1];
            After(l, calls).start == Rolled(l, After(l, init), last.now).start
  {
    assert calls == calls[..|calls| - 1] + [calls[|calls| - 1]];
    RolledStart(l, calls[..|calls| - 1], calls[|calls| - 1]);
    hide After;
  }

  lemma FirstAdmitted(l: Limits, calls: seq<Call>)
    requires Validated(l) && AllAskable(l, calls) && !SomeNameTooLong(l) && calls != []
    requires Expired(l, After(l, calls[..|calls| - 1]), calls[|calls| - 1].now)
    ensures LastVerdict(l, calls).Admitted?
  {
    var init, last := calls[..|calls| - 1], calls[|calls| - 1];
    assert calls == init + [last] && [] + [last.name] == [last.name];
    FirstFits(l, last.name);
    OneMoreAdmitted(l, init, last);
  }

  /** In a window that opened before the interval the opener is in the log and not
      among the hits, unless it was refused. */
  lemma {:induction false} OpenerMissed(l: Limits, calls: seq<Call>, from: nat)
    requires Validated(l) && Ordered(calls) && AllAskable(l, calls) && !SomeNameTooLong(l) && calls != []
    ensures var start := After(l, calls).start;
            start.Some? && (start.value < from ==> |Hits(l, calls, from)| < |Log(l, calls)|)
  {
    var init, last := calls[..|calls| - 1], calls[|calls| - 1];
    OrderedPrefix(calls);
    LastRolls(l, calls);
    if Expired(l, After(l, init), last.now) {
      FirstAdmitted(l, calls);
      hide After, LastVerdict, Askable, SomeNameTooLong;
      if last.now < from {
        NoHitsBefore(l, init, from);
      }
    } else {
      OpenerMissed(l, init, from);
      hide After, LastVerdict, Askable, SomeNameTooLong;
    }
  }

  /** The hits so far, split in two: until the interval is over the second part ends
      the current log, and the first is of an earlier window. */
  ghost predicate SplitAt(l: Limits, calls: seq<Call>, from: nat, k: nat)
    requires Validated(l)
  {
    var hits, start := Hits(l, calls, from), After(l, calls).start;
    && InTwo(l, hits, k)
    && (calls == [] || calls[|calls| - 1].now < from + l.window ==>
          && IsSuffix(hits[k..], Log(l, calls))
          && (k > 0 ==> start.Some? && from <= start.value)
          && (hits[k..] != [] ==> start.Some? && from < start.value + l.window))
  }

  /** What a window that opened before the interval admitted in it fits behind its
      opener. */
  lemma RollSplits(l: Limits, calls: seq<Call>, from: nat)
    requires Validated(l) && Ordered(calls) && AllAskable(l, calls) && calls != []
    requires var start := After(l, calls).start;
             IsSuffix(Hits(l, calls, from), Log(l, calls)) && start.Some? && start.value < from
    ensures AfterOpener(l, Hits(l, calls, from))
  {
    hide Hits, Log, After, Within, Askable, SomeNameTooLong, Summary;
    var hits, log := Hits(l, calls, from), Log(l, calls);
    GuardIsFold(l, calls);
    if SomeNameTooLong(l) {
      SuffixWithin(l, hits, log);
    } else {
      OpenerMissed(l, calls, from);
      LogAskable(l, calls);
      var j := |log| - |hits| - 1;
      assert log[j..] == [log[j]] + hits;
      SuffixWithin(l, log[j..], log);
      assert Opens(l, log[j], hits);
    }
  }

  lemma Appended(hits: seq<string>, k: nat, log: seq<string>, added: seq<string>)
    requires k <= |hits| && IsSuffix(hits[k..], log)
    ensures (hits + added)[k..] == hits[k..] + added && (hits + added)[..k] == hits[..k]
    ensures IsSuffix(hits[k..] + added, log + added)
  {
    var newer, all := hits[k..], log + added;
    assert all[|all| - |newer + added|..] == newer + added;
  }

  /** What the last call adds to the log, and to the hits before the interval is over. */
  lemma LastAdds(l: Limits, calls: seq<Call>, from: nat) returns (added: seq<string>)
    requires calls != [] && calls[|calls| - 1].now < from + l.window
    ensures var init, last := calls[..|calls| - 1], calls[|calls| - 1];
            && Hits(l, calls, from) == Hits(l, init, from) + (if from <= last.now then added else [])
            && Log(l, calls) == (if Expired(l, After(l, init), last.now) then [] else Log(l, init)) + added
  {
    hide After, LastVerdict, Expired;
    added := if LastVerdict(l, calls).Admitted? then [calls[|calls| - 1].name] else [];
  }

  lemma BeforeInterval(l: Limits, calls: seq<Call>, from: nat)
    requires Ordered(calls) && calls != [] && calls[|calls| - 1].now < from
    ensures Hits(l, calls, from) == [] && Hits(l, calls[..|calls| - 1], from) == []
  {
    OrderedPrefix(calls);
    NoHitsBefore(l, calls, from);
    NoHitsBefore(l, calls[..|calls| - 1], from);
  }

  lemma GoesOn(l: Limits, calls: seq<Call>, from: nat, k: nat)
    requires Validated(l) && Ordered(calls) && calls != [] && calls[|calls| - 1].now < from + l.window
    requires var init, last := calls[..|calls| - 1], calls[|calls| - 1];
             SplitAt(l, init, from, k) && !Expired(l, After(l, init), last.now)
    ensures SplitAt(l, calls, from, k)
  {
    var init, last := calls[..|calls| - 1], calls[|calls| - 1];
    OrderedPrefix(calls);
    LastRolls(l, calls);
    GuardIsFold(l, calls);
    hide Hits, Log, After, Within, AfterOpener, Summary;
    var added := LastAdds(l, calls, from);
    var hits, log := Hits(l, init, from), Log(l, init);
    if last.now < from {
      BeforeInterval(l, calls, from);
    } else {
      Appended(hits, k, log, added);
      SuffixWithin(l, hits[k..] + added, log + added);
    }
  }

  /** A roll inside the interval: the hits so far are all of the window before. */
  lemma EarlierWindow(l: Limits, calls: seq<Call>, from: nat, k: nat, now: nat)
    requires Validated(l) && Ordered(calls) && AllAskable(l, calls) && SplitAt(l, calls, from, k)
    requires Hits(l, calls, from) != [] && (calls != [] ==> calls[|calls| - 1].now <= now)
    requires Expired(l, After(l, calls), now) && now < from + l.window
    ensures AfterOpener(l, Hits(l, calls, from)) && l.window >= 2
  {
    NothingHit(l, calls, from);
    hide Hits, Log, After, Within, AfterOpener, Askable;
    var hits := Hits(l, calls, from);
    assert k == 0;
    assert hits[0..] == hits;
    RollSplits(l, calls, from);
  }

  lemma Rolls(l: Limits, calls: seq<Call>, from: nat, k: nat)
    requires Validated(l) && Ordered(calls) && AllAskable(l, calls) && calls != []
    requires var init, last := calls[..|calls| - 1], calls[|calls| - 1];
             SplitAt(l, init, from, k) && Expired(l, After(l, init), last.now) && last.now < from + l.window
    ensures SplitAt(l, calls, from, |Hits(l, calls[..|calls| - 1], from)|)
  {
    var init, last := calls[..|calls| - 1], calls[|calls| - 1];
    OrderedPrefix(calls);
    LastRolls(l, calls);
    GuardIsFold(l, calls);
    hide Hits, Log, After, Within, AfterOpener, Summary, Askable;
    var added := LastAdds(l, calls, from);
    var hits := Hits(l, init, from);
    if hits != [] {
      EarlierWindow(l, init, from, k, last.now);
    }
    hide SplitAt, Ordered;
    if last.now < from {
      BeforeInterval(l, calls, from);
    }
    Restarts(l, calls, from, hits, added);
  }

  lemma Restarts(l: Limits, calls: seq<Call>, from: nat, hits: seq<string>, added: seq<string>)
    requires Validated(l) && calls != [] && After(l, calls).start == Some(calls[|calls| - 1].now)
    requires var inside := from <= calls[|calls| - 1].now;
             && Hits(l, calls, from) == hits + (if inside then added else []) && (!inside ==> hits == [])
    requires Within(l, Log(l, calls)) && Log(l, calls) == [] + added
    requires hits != [] ==> AfterOpener(l, hits) && l.window >= 2
    ensures SplitAt(l, calls, from, |hits|)
  {
    hide Hits, Log, After, Within, AfterOpener;
    var newer := if from <= calls[|calls| - 1].now then added else [];
    assert (hits + newer)[|hits|..] == newer && (hits + newer)[..|hits|] == hits;
    assert IsSuffix(newer, added) && [] + added == added;
    SuffixWithin(l, newer, added);
  }

  lemma NothingHit(l: Limits, calls: seq<Call>, from: nat)
    ensures calls == [] ==> Hits(l, calls, from) == []
  {
  }

  lemma {:induction false} HitsInTwo(l: Limits, calls: seq<Call>, from: nat) returns (k: nat)
    requires Validated(l) && Ordered(calls) && AllAskable(l, calls)
    ensures SplitAt(l, calls, from, k)
    decreases |calls|
  {
    if calls == [] {
      EmptyWithin(l);
      k := 0;
    } else {
      var init, last := calls[..|calls| - 1], calls[|calls| - 1];
      OrderedPrefix(calls);
      k := HitsInTwo(l, init, from);
      hide After, LastVerdict, Within, AfterOpener, Log, Askable;
      if last.now >= from + l.window {
        assert Hits(l, calls, from) == Hits(l, init, from);
      } else if Expired(l, After(l, init), last.now) {
        Rolls(l, calls, from, k);
        k := |Hits(l, init, from)|;
      } else {
        GoesOn(l, calls, from, k);
      }
    }
  }

  /** Exactly what a run can spend within one window's length: names that fit in one
      window, or names of which the first fit behind an opener and the others in the
      next window. */
  lemma SpendableExactly(l: Limits, log: seq<string>)
    requires Validated(l)
    ensures Spendable(l, log) <==> NamesAskable(l, log) && exists k: nat :: InTwo(l, log, k)
  {
    hide InTwo, Hits, Askable, Ordered;
    if Spendable(l, log) {
      var calls: seq<Call>, from: nat :| Spends(l, calls, from, log);
      HitsAskable(l, calls, from);
      var k := HitsInTwo(l, calls, from);
    }
    if k: nat :| NamesAskable(l, log) && InTwo(l, log, k) {
      Spent(l, log, k);
    }
  }

  lemma Spent(l: Limits, log: seq<string>, k: nat)
    requires Validated(l) && NamesAskable(l, log) && InTwo(l, log, k)
    ensures Spendable(l, log)
  {
    hide Askable, Within, AfterOpener, Spendable;
    if k == 0 {
      assert log[0..] == log;
      OneWindowSpends(l, log);
    } else {
      TwoWindowsSpend(l, log, k);
    }
  }
}
