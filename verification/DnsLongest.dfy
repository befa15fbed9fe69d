/** The names the brokers hand to the DNS guard, and how long they can be. */
module DnsLongest {
  import opened DnsBudget
  import Domain
  import opened Splitting

  /** What the brokers hand to the guard: normalized names within the structural
      limits. */
  ghost predicate Askable(l: Limits, name: string) {
    Domain.IsNormalized(name) && StructureVerdict(l, name).None?
  }

  /** The length of the longest such name. With labels of one octet a name has an odd
      number of octets. */
  function LongestName(l: Limits): (n: nat)
    requires Validated(l)
  {
    LabelsTimes(l.maxLabels, l.maxLabelOctets);
    var room := l.maxLabels * (l.maxLabelOctets + 1) - 1;
    var n := if room < l.maxQnameOctets then room else l.maxQnameOctets;
    if l.maxLabelOctets == 1 && n % 2 == 0 then n - 1 else n
  }

  /** Some askable name is longer than a whole octet budget, so that it is refused even
      by an empty window. */
  predicate SomeNameTooLong(l: Limits)
    requires Validated(l)
  {
    LongestName(l) > l.maxQueryOctets
  }

  lemma LabelsTimes(count: nat, m: nat)
    requires count >= 1
    ensures count * (m + 1) == (count - 1) * (m + 1) + (m + 1) >= m + 1
  {
  }

  lemma MoreLabels(a: nat, b: nat, m: nat)
    requires a <= b
    ensures a * (m + 1) <= b * (m + 1)
  {
  }

  // ---- No name is longer ---------------------------------------------------

  lemma {:induction false} JoinedLength(labels: seq<string>, m: nat)
    requires labels != [] && forall i | 0 <= i < |labels| :: 1 <= |labels[i]| <= m
    ensures |Join(labels, '.')| < |labels| * (m + 1)
    ensures m == 1 ==> |Join(labels, '.')| == 2 * |labels| - 1
  {
    if |labels| > 1 {
      JoinedLength(labels[1..], m);
      LabelsTimes(|labels|, m);
    }
  }

  lemma LabelLengths(l: Limits, name: string)
    requires Askable(l, name)
    ensures forall i | 0 <= i < |Split(name, '.')| :: 1 <= |Split(name, '.')[i]| <= l.maxLabelOctets
  {
    var labels := Split(name, '.');
    forall i | 0 <= i < |labels| ensures 1 <= |labels[i]| <= l.maxLabelOctets {
      assert Domain.IsLabel(labels[i]);
      assert |labels[i]| <= Domain.Octets(labels[i]);
    }
  }

  lemma AskableBounds(l: Limits, name: string)
    requires Askable(l, name)
    ensures Domain.IsNormalized(name) && Domain.Octets(name) <= l.maxQnameOctets && |Split(name, '.')| <= l.maxLabels
  {
    hide Domain.Octets, Domain.IsNormalized, Split;
  }

  /** An askable name's length, against the number of its labels. */
  lemma AskableShape(l: Limits, name: string) returns (count: nat)
    requires Askable(l, name)
    ensures 1 <= Domain.Octets(name) <= l.maxQnameOctets && count <= l.maxLabels
    ensures Domain.Octets(name) < count * (l.maxLabelOctets + 1)
    ensures l.maxLabelOctets == 1 ==> Domain.Octets(name) == 2 * count - 1
  {
    hide Askable, Split, Join, Domain.IsNormalized, Domain.Octets;
    AskableBounds(l, name);
    Domain.NormalizedCharacters(name);
    LabelLengths(l, name);
    JoinSplit(name, '.');
    var labels := Split(name, '.');
    JoinedLength(labels, l.maxLabelOctets);
    count := |labels|;
  }

  lemma AskableAtMost(l: Limits, name: string)
    requires Validated(l) && Askable(l, name)
    ensures 1 <= Domain.Octets(name) <= LongestName(l)
  {
    hide Askable, Domain.Octets;
    var count := AskableShape(l, name);
    MoreLabels(count, l.maxLabels, l.maxLabelOctets);
  }

  // ---- One that is as long -------------------------------------------------

  function Filled(n: nat): (s: string)
    ensures |s| == n && forall i | 0 <= i < n :: s[i] == 'a'
  {
    seq(n, _ => 'a')
  }

  /** `n` octets in labels of at most `m`, as few as possible. */
  function LabelsOf(n: nat, m: nat): (labels: seq<string>)
    requires n >= 1 && m >= 1 && (m == 1 ==> n % 2 == 1)
    ensures labels != []
  {
    if n <= m then [Filled(n)]
    else if n == m + 1 then [Filled(m - 1), Filled(1)]
    else [Filled(m)] + LabelsOf(n - m - 1, m)
  }

  lemma {:induction false} LabelsOfFit(n: nat, m: nat, count: nat)
    requires n >= 1 && m >= 1 && (m == 1 ==> n % 2 == 1) && n < count * (m + 1)
    ensures var labels := LabelsOf(n, m);
            && |labels| <= count && |Join(labels, '.')| == n
            && forall i | 0 <= i < |labels| :: 1 <= |labels[i]| <= m && labels[i] == Filled(|labels[i]|)
  {
    if n > m {
      MoreLabels(if count < 2 then count else 1, 1, m);
      LabelsTimes(count, m);
      if n > m + 1 {
        LabelsOfFit(n - m - 1, m, count - 1);
        var rest := LabelsOf(n - m - 1, m);
        assert LabelsOf(n, m)[1..] == rest;
      } else {
        assert [Filled(m - 1), Filled(1)][1..] == [Filled(1)];
        LabelsTimes(count - 1, m);
      }
    }
  }

  lemma FilledIsLabel(n: nat)
    requires 1 <= n <= 63
    ensures Domain.IsLabel(Filled(n)) && Domain.Octets(Filled(n)) == n && '.' !in Filled(n)
  {
    Domain.OctetsAscii(Filled(n));
  }

  lemma FilledLabels(labels: seq<string>, m: nat)
    requires m <= 63 && forall i | 0 <= i < |labels| :: 1 <= |labels[i]| <= m && labels[i] == Filled(|labels[i]|)
    ensures forall i | 0 <= i < |labels| ::
              Domain.IsLabel(labels[i]) && Domain.Octets(labels[i]) <= m && '.' !in labels[i]
  {
    hide Domain.IsLabel, Domain.Octets;
    forall i | 0 <= i < |labels|
      ensures Domain.IsLabel(labels[i]) && Domain.Octets(labels[i]) <= m && '.' !in labels[i]
    {
      FilledIsLabel(|labels[i]|);
    }
  }

  lemma JoinedAskable(l: Limits, labels: seq<string>)
    requires Validated(l) && labels != [] && |labels| <= l.maxLabels && |Join(labels, '.')| <= l.maxQnameOctets
    requires forall i | 0 <= i < |labels| ::
               Domain.IsLabel(labels[i]) && Domain.Octets(labels[i]) <= l.maxLabelOctets && '.' !in labels[i]
    ensures Askable(l, Join(labels, '.')) && Domain.Octets(Join(labels, '.')) == |Join(labels, '.')|
  {
    SplitJoin(labels, '.');
    var name := Join(labels, '.');
    hide Join, Split, Domain.IsLabel, Domain.Octets;
    assert Domain.IsNormalized(name);
    Domain.NormalizedCharacters(name);
    hide Domain.IsNormalized;
  }

  lemma LongestIsAskable(l: Limits) returns (name: string)
    requires Validated(l)
    ensures Askable(l, name) && Domain.Octets(name) == LongestName(l)
  {
    var n, m := LongestName(l), l.maxLabelOctets;
    assert n < l.maxLabels * (m + 1) && 1 <= n <= l.maxQnameOctets && (m == 1 ==> n % 2 == 1);
    hide LongestName, Askable, LabelsOf, Join, Domain.IsLabel, Domain.Octets;
    LabelsOfFit(n, m, l.maxLabels);
    var labels := LabelsOf(n, m);
    FilledLabels(labels, m);
    JoinedAskable(l, labels);
    name := Join(labels, '.');
  }

  /** The closed form is exact: names up to it, and one of its length. */
  lemma LongestExactly(l: Limits, n: nat)
    requires Validated(l)
    ensures (exists name :: Askable(l, name) && Domain.Octets(name) > n) <==> LongestName(l) > n
  {
    hide Askable, LongestName;
    forall name | Askable(l, name) ensures Domain.Octets(name) <= LongestName(l) {
      AskableAtMost(l, name);
    }
    var longest := LongestIsAskable(l);
  }
}
