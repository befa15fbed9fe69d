/** How much of the DNS budget can be spent within one window's length, in numbers:
    the most queries, distinct names and labels, when one budget is the limit, and
    which counters a run can overflow. */
module DnsTightness {
  import opened Prelude
  import opened DnsBudget
  import opened DnsLongest
  import opened DnsBursts
  import Domain
  import Splitting

  // ---- Names of one letter -------------------------------------------------

  lemma OneOctet(c: char)
    requires 'a' <= c <= 'z'
    ensures Domain.Octets([c]) == 1 && Splitting.Split([c], '.') == [[c]] && Domain.IsNormalized([c])
  {
    assert [c][1..] == "";
    Splitting.SplitWhole([c], '.');
  }

  lemma ShortestIsAskable(l: Limits, c: char)
    requires Validated(l) && 'a' <= c <= 'z'
    ensures Askable(l, [c])
  {
    OneOctet(c);
  }

  function Copies(n: nat): (r: seq<string>)
    ensures |r| == n && forall i | 0 <= i < n :: r[i] == "a"
  {
    seq(n, _ => "a")
  }

  /** How many of them one window admits. */
  function Capacity(l: Limits): (n: nat) {
    if l.maxQueries < l.maxQueryOctets then l.maxQueries else l.maxQueryOctets
  }

  ghost predicate AllLetters(log: seq<string>) {
    forall i | 0 <= i < |log| :: |log[i]| == 1 && 'a' <= log[i][0] <= 'z'
  }

  lemma {:induction false} LettersOctets(log: seq<string>)
    requires AllLetters(log)
    ensures OctetSum(log) == |log|
  {
    if log != [] {
      LettersOctets(log[..|log| - 1]);
      var last := log[|log| - 1];
      OneOctet(last[0]);
      assert last == [last[0]];
    }
  }

  lemma LettersAskable(l: Limits, log: seq<string>)
    requires Validated(l) && AllLetters(log)
    ensures NamesAskable(l, log)
  {
    hide Askable;
    forall i | 0 <= i < |log| ensures Askable(l, log[i]) {
      ShortestIsAskable(l, log[i][0]);
      assert log[i] == [log[i][0]];
    }
  }

  lemma CopiesWithin(l: Limits, n: nat)
    requires Validated(l)
    ensures Within(l, Copies(n)) <==> n <= Capacity(l)
  {
    LettersOctets(Copies(n));
    LabelsAtMostNames(Copies(n));
    assert Names(Copies(n)) <= {"a"};
    SubsetSize(Names(Copies(n)), {"a"});
  }

  lemma CopiesPart(n: nat, k: nat)
    requires k <= n
    ensures Copies(n)[..k] == Copies(k) && Copies(n)[k..] == Copies(n - k) && ["a"] + Copies(n) == Copies(n + 1)
  {
  }

  // ---- The most queries ----------------------------------------------------

  /** Twice the capacity, one less if every window opens with an admitted query. */
  function MostQueries(l: Limits): (n: nat)
    requires Validated(l)
  {
    if SomeNameTooLong(l) then 2 * Capacity(l) else 2 * Capacity(l) - 1
  }

  lemma MostReached(l: Limits)
    requires Validated(l) && l.window >= 2
    ensures Spendable(l, Copies(MostQueries(l))) && OctetSum(Copies(MostQueries(l))) == MostQueries(l)
  {
    var n := MostQueries(l);
    var k := n - Capacity(l);
    hide Within, Copies, SomeNameTooLong, Spendable, Askable;
    LettersOctets(Copies(n));
    LettersAskable(l, Copies(n));
    CopiesPart(n, k);
    CopiesWithin(l, Capacity(l));
    CopiesWithin(l, k);
    if k > 0 && !SomeNameTooLong(l) {
      CopiesPart(k, k);
      CopiesWithin(l, k + 1);
      ShortestIsAskable(l, 'a');
      assert Opens(l, "a", Copies(k));
    }
    assert InTwo(l, Copies(n), k);
    Spent(l, Copies(n), k);
  }

  /** What fits behind an opener that was admitted is at least an octet short. */
  lemma BehindOpener(l: Limits, opener: string, log: seq<string>)
    requires Validated(l) && Opens(l, opener, log) && NamesAskable(l, log)
    ensures |log| < Capacity(l) && OctetSum(log) < l.maxQueryOctets
  {
    FitsOctets(l, opener, log);
    AskableAtMost(l, opener);
    OctetBounds(l, log);
    hide OctetSum, Domain.Octets, Askable, LongestName;
  }

  lemma SecondPartBounds(l: Limits, log: seq<string>)
    requires Validated(l) && NamesAskable(l, log) && Within(l, log)
    ensures |log| <= Capacity(l) && OctetSum(log) <= l.maxQueryOctets
  {
    OctetBounds(l, log);
  }

  lemma FirstPartBounds(l: Limits, log: seq<string>)
    requires Validated(l) && NamesAskable(l, log) && AfterOpener(l, log)
    ensures var short := if SomeNameTooLong(l) then 0 else 1;
            |log| <= Capacity(l) - short && OctetSum(log) <= l.maxQueryOctets - short
  {
    hide Askable, SomeNameTooLong, OctetSum, Names, Labels, Opens;
    if opener :| Opens(l, opener, log) {
      BehindOpener(l, opener, log);
    } else {
      SecondPartBounds(l, log);
    }
  }

  lemma MostBounds(l: Limits, log: seq<string>, k: nat)
    requires Validated(l) && NamesAskable(l, log) && InTwo(l, log, k)
    ensures |log| <= MostQueries(l)
    ensures OctetSum(log) <= 2 * l.maxQueryOctets - (if SomeNameTooLong(l) then 0 else 1)
  {
    var a, b := log[..k], log[k..];
    assert log == a + b && NamesAskable(l, a) && NamesAskable(l, b) && Capacity(l) >= 1;
    assert k == 0 ==> OctetSum(a) == 0;
    hide Askable, SomeNameTooLong, OctetSum, Within, AfterOpener, NamesAskable, Capacity;
    OctetSumConcat(a, b);
    SecondPartBounds(l, b);
    if k > 0 {
      FirstPartBounds(l, a);
    }
  }

  /** The most queries any run gets admitted within one window's length. */
  lemma MostQueriesExactly(l: Limits)
    requires Validated(l) && l.window >= 2
    ensures Spendable(l, Copies(MostQueries(l))) && OctetSum(Copies(MostQueries(l))) == MostQueries(l)
    ensures forall log | Spendable(l, log) ::
              && |log| <= MostQueries(l)
              && OctetSum(log) <= 2 * l.maxQueryOctets - (if SomeNameTooLong(l) then 0 else 1)
  {
    hide Spendable, InTwo, MostQueries, SomeNameTooLong, NamesAskable, OctetSum;
    MostReached(l);
    forall log | Spendable(l, log)
      ensures |log| <= MostQueries(l) && OctetSum(log) <= 2 * l.maxQueryOctets - (if SomeNameTooLong(l) then 0 else 1)
    {
      SpendableExactly(l, log);
      var k: nat :| InTwo(l, log, k);
      MostBounds(l, log, k);
    }
  }

  // ---- Distinct names and labels -------------------------------------------

  /** The alphabet, or as much of it. */
  function Letters(n: nat): (log: seq<string>)
    requires n <= 26
    ensures |log| == n && forall i | 0 <= i < n :: log[i] == [(97 + i) as char]
    ensures AllLetters(log) && Distinct(log)
  {
    seq(n, i requires 0 <= i < n => [(97 + i) as char])
  }

  ghost predicate Distinct(log: seq<string>) {
    forall i, j | 0 <= i < j < |log| :: log[i] != log[j]
  }

  lemma {:induction false} DistinctNames(log: seq<string>)
    requires Distinct(log)
    ensures |Names(log)| == |log|
  {
    if log == [] {
      assert Names(log) == {};
    } else {
      var init, last := log[..|log| - 1], log[|log| - 1];
      DistinctNames(init);
      assert log == init + [last] && last !in init;
      OneMoreQuery(init, last);
    }
  }

  /** The leftmost label of a letter is the letter. */
  lemma LettersLabels(log: seq<string>)
    requires AllLetters(log)
    ensures Labels(log) == Names(log)
  {
    forall x | x in log ensures Domain.LeftmostLabel(x) == x {
      OneOctet(x[0]);
      assert x == [x[0]];
    }
  }

  lemma DistinctLetters(log: seq<string>)
    requires AllLetters(log) && Distinct(log)
    ensures |Names(log)| == |Labels(log)| == OctetSum(log) == |log|
  {
    DistinctNames(log);
    LettersLabels(log);
    LettersOctets(log);
  }

  /** Of distinct letters a window admits as many as it has room for. */
  lemma DistinctWithin(l: Limits, log: seq<string>)
    requires AllLetters(log) && Distinct(log)
    requires |log| <= Capacity(l) && |log| <= l.maxUniqueNames && |log| <= l.maxDynamicLabels
    ensures Within(l, log)
    ensures log != [] && |log| < Capacity(l) ==> Within(l, [log[0]] + log)
  {
    DistinctLetters(log);
    if log != [] {
      var again := [log[0]] + log;
      OctetSumConcat([log[0]], log);
      LettersOctets([log[0]]);
      assert Names(again) == Names(log) && Labels(again) == Labels(log) by {
        assert log[0] in log;
        assert forall x :: x in again <==> x in log;
      }
    }
  }

  /** Twice the distinct names and labels of one window are reached too, with room for
      the opener if that is admitted; it may be asked for again. */
  lemma DistinctTwice(l: Limits, m: nat)
    requires Validated(l) && l.window >= 2 && 1 <= m <= 13 && m <= l.maxUniqueNames && m <= l.maxDynamicLabels
    requires m + (if SomeNameTooLong(l) then 0 else 1) <= Capacity(l)
    ensures Spendable(l, Letters(2 * m)) && |Names(Letters(2 * m))| == |Labels(Letters(2 * m))| == 2 * m
  {
    hide Within, Spendable, Askable, SomeNameTooLong, Letters, Names, Labels, OctetSum;
    var log := Letters(2 * m);
    var a, b := log[..m], log[m..];
    DistinctLetters(log);
    LettersAskable(l, log);
    DistinctWithin(l, a);
    DistinctWithin(l, b);
    if !SomeNameTooLong(l) {
      assert Askable(l, log[0]);
      assert Opens(l, a[0], a);
    }
    assert InTwo(l, log, m);
    Spent(l, log, m);
  }

  // ---- When one budget is enough -------------------------------------------

  /** Every interval as long as the window stays within one budget. */
  ghost predicate OneBudgetHolds(l: Limits) {
    forall log | Spendable(l, log) :: Within(l, log)
  }

  lemma OneWindowOnly(l: Limits, log: seq<string>, k: nat)
    requires Validated(l) && NamesAskable(l, log) && InTwo(l, log, k)
    requires l.window == 1 || (Capacity(l) == 1 && !SomeNameTooLong(l))
    ensures Within(l, log)
  {
    hide Within, Askable, SomeNameTooLong;
    if k > 0 {
      var opener :| Opens(l, opener, log[..k]);
      BehindOpener(l, opener, log[..k]);
    }
    assert log[0..] == log;
  }

  /** One budget is enough for every interval exactly when windows are one tick long,
      or when a window has room for one query only and always takes the first. */
  lemma OneBudgetExactly(l: Limits)
    requires Validated(l)
    ensures OneBudgetHolds(l) <==> l.window == 1 || (Capacity(l) == 1 && !SomeNameTooLong(l))
  {
    hide Spendable, InTwo, SomeNameTooLong, NamesAskable, Within;
    if l.window == 1 || (Capacity(l) == 1 && !SomeNameTooLong(l)) {
      forall log | Spendable(l, log) ensures Within(l, log) {
        SpendableExactly(l, log);
        var k: nat :| InTwo(l, log, k);
        OneWindowOnly(l, log, k);
      }
    } else {
      MostReached(l);
      CopiesWithin(l, MostQueries(l));
      assert !Within(l, Copies(MostQueries(l)));
    }
  }

  // ---- Counters ------------------------------------------------------------

  /** The window that judges the last call of a run. */
  lemma JudgedBy(l: Limits, calls: seq<Call>, c: Call)
    ensures LastVerdict(l, calls + [c]) == Judge(l, Rolled(l, After(l, calls), c.now), c.name)
    ensures Rolled(l, After(l, calls), c.now) == Summary(Rolled(l, After(l, calls), c.now).start, Base(l, calls, c.now))
    ensures Within(l, Base(l, calls, c.now))
  {
    assert (calls + [c])[..|calls|] == calls && (calls + [c])[|calls|] == c;
    GuardIsFold(l, calls);
    EmptyWithin(l);
    hide Judge, After, Log;
  }

  /** The query counter can overflow in a run exactly when its maximum is the
      largest integer and the octet budget lets that many names and one more by;
      the octet counter never can. */
  lemma OverflowExactly(l: Limits)
    requires Validated(l)
    ensures (exists calls: seq<Call> :: calls != [] && AllAskable(l, calls) && LastVerdict(l, calls).Overflow?) <==>
            l.maxQueries == U32_MAX && l.maxQueryOctets > U32_MAX
  {
    hide LastVerdict, AllAskable;
    forall calls: seq<Call> | calls != [] && AllAskable(l, calls) && LastVerdict(l, calls).Overflow?
      ensures l.maxQueries == U32_MAX && l.maxQueryOctets > U32_MAX
    {
      OverflowNeeds(l, calls);
    }
    if l.maxQueries == U32_MAX && l.maxQueryOctets > U32_MAX {
      var calls := OverflowReached(l);
    }
  }

  lemma OverflowNeeds(l: Limits, calls: seq<Call>)
    requires Validated(l) && calls != [] && AllAskable(l, calls) && LastVerdict(l, calls).Overflow?
    ensures l.maxQueries == U32_MAX && l.maxQueryOctets > U32_MAX
  {
    var init, last := calls[..|calls| - 1], calls[|calls| - 1];
    assert calls == init + [last] && Askable(l, last.name);
    JudgedBy(l, init, last);
    LogAskable(l, init);
    var base := Base(l, init, last.now);
    EmptyAskable(l);
    OctetBounds(l, base);
    AskableAtMost(l, last.name);
    hide LastVerdict, After, Log, Askable;
  }

  lemma EmptyAskable(l: Limits)
    ensures NamesAskable(l, [])
  {
  }

  lemma OverflowReached(l: Limits) returns (calls: seq<Call>)
    requires Validated(l) && l.maxQueries == U32_MAX && l.maxQueryOctets > U32_MAX
    ensures calls != [] && AllAskable(l, calls) && LastVerdict(l, calls).Overflow?
  {
    var log := Copies(U32_MAX);
    var full := CallsAt(0, log);
    calls := full + [Call("a", 0)];
    assert AllAskable(l, calls) by {
      ShortestIsAskable(l, 'a');
      hide Askable;
    }
    assert [] + full == full && [] + log == log;
    CopiesWithin(l, U32_MAX);
    Burst(l, [], 0, log, 0);
    JudgedBy(l, full, Call("a", 0));
    LettersOctets(log);
    OneOctet('a');
    assert "a" == log[0] && "a" in Names(log);
    assert Domain.LeftmostLabel("a") in Labels(log);
    hide LastVerdict, After, Log, Hits, Domain.Octets, OctetSum, Copies, CallsAt;
  }
}
