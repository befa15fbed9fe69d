/** The single-backtrack glob matcher of the core crate, and how far it agrees
    with the usual meaning of `?` (one character) and `*` (any run). */
module Glob {

  /** The usual meaning of a glob pattern. */
  ghost predicate Matches(v: string, p: string)
    decreases |p|
  {
    if p == "" then v == ""
    else if p[0] == '*' then exists k | 0 <= k <= |v| :: Matches(v[k..], p[1..])
    else v != "" && (p[0] == '?' || p[0] == v[0]) && Matches(v[1..], p[1..])
  }

  /** As `Matches`, except that a pattern `*` facing a literal `*` in the value
      is that one character. */
  ghost predicate LiteralStarMatches(v: string, p: string)
    decreases |p|
  {
    if p == "" then v == ""
    else if p[0] == '*' && (v == "" || v[0] != '*') then
      exists k | 0 <= k <= |v| :: LiteralStarMatches(v[k..], p[1..])
    else v != "" && (p[0] == '?' || p[0] == v[0]) && LiteralStarMatches(v[1..], p[1..])
  }

  /** What the matcher computes, on every input. */
  ghost predicate Accepts(v: string, p: string) {
    p == "*" || LiteralStarMatches(v, p)
  }

  /** The matcher continued from value index `i` and pattern index `j`. */
  ghost predicate At(v: string, p: string, i: nat, j: nat)
    requires i <= |v| && j <= |p|
  {
    LiteralStarMatches(v[i..], p[j..])
  }

  /** As `At`, from some value index at or after `i`. */
  ghost predicate AtOrAfter(v: string, p: string, i: nat, j: nat)
    requires j <= |p|
  {
    exists k | i <= k <= |v| :: At(v, p, k, j)
  }

  lemma AtStep(v: string, p: string, i: nat, j: nat)
    requires i < |v| && j < |p| && (p[j] == '?' || p[j] == v[i])
    ensures At(v, p, i, j) <==> At(v, p, i + 1, j + 1)
  {
    assert v[i..][1..] == v[i + 1..] && p[j..][1..] == p[j + 1..];
  }

  lemma AtStar(v: string, p: string, i: nat, j: nat)
    requires i <= |v| && j < |p| && p[j] == '*' && (i == |v| || v[i] != '*')
    ensures At(v, p, i, j) <==> AtOrAfter(v, p, i, j + 1)
  {
    if At(v, p, i, j) {
      StarTaken(v, p, i, j);
    }
    if AtOrAfter(v, p, i, j + 1) {
      var k :| i <= k <= |v| && At(v, p, k, j + 1);
      StarCovers(v, p, i, j, k);
    }
  }

  lemma {:induction false} StarTaken(v: string, p: string, i: nat, j: nat)
    requires i <= |v| && j < |p| && p[j] == '*' && (i == |v| || v[i] != '*')
    requires At(v, p, i, j)
    ensures AtOrAfter(v, p, i, j + 1)
  {
    var w, q := v[i..], p[j..];
    var k :| 0 <= k <= |w| && LiteralStarMatches(w[k..], q[1..]);
    assert w[k..] == v[i + k..] && q[1..] == p[j + 1..];
    assert At(v, p, i + k, j + 1);
  }

  lemma {:induction false} StarCovers(v: string, p: string, i: nat, j: nat, k: nat)
    requires i <= k <= |v| && j < |p| && p[j] == '*' && (i == |v| || v[i] != '*')
    requires At(v, p, k, j + 1)
    ensures At(v, p, i, j)
  {
    var w, q := v[i..], p[j..];
    assert w[k - i..] == v[k..] && q[1..] == p[j + 1..];
    assert LiteralStarMatches(w[k - i..], q[1..]);
  }

  lemma AtEnd(v: string, p: string, i: nat)
    requires i <= |v|
    ensures At(v, p, i, |p|) <==> i == |v|
  {
  }

  lemma AtMismatch(v: string, p: string, i: nat, j: nat)
    requires i < |v| && j < |p| && p[j] != '?' && p[j] != '*' && p[j] != v[i]
    ensures !At(v, p, i, j)
  {
  }

  /** The pattern segment `p[j..m]` was consumed one character each, ending at
      value index `e`. */
  ghost predicate Aligned(v: string, p: string, j: nat, m: nat, e: nat)
    requires j <= m <= |p| && e <= |v|
  {
    m - j <= e && forall t | j <= t < m :: p[t] == '?' || p[t] == v[e - (m - t)]
  }

  /** Any later alignment of a consumed segment ends no earlier. A `*` of the
      segment may shrink to nothing there, but only while that alignment is
      strictly ahead of the consumed one. */
  lemma {:induction false} Slide(v: string, p: string, j: nat, m: nat, e: nat, a: nat)
    requires j <= m <= |p| && e <= |v| && Aligned(v, p, j, m, e)
    requires e - (m - j) <= a <= |v| && At(v, p, a, j)
    ensures AtOrAfter(v, p, e, m)
    decreases m - j
  {
    if j < m {
      if p[j] == '*' && (a == |v| || v[a] != '*') {
        AtStar(v, p, a, j);
        var k :| a <= k <= |v| && At(v, p, k, j + 1);
        assert p[j] == '?' || p[j] == v[e - (m - j)];
        Slide(v, p, j + 1, m, e, k);
      } else {
        AtStep(v, p, a, j);
        Slide(v, p, j + 1, m, e, a + 1);
      }
    }
  }

  /** A new star makes the previous one redundant. */
  lemma NewStarCovers(v: string, p: string, sp: nat, sv: nat, i: nat, j: nat)
    requires sp < j < |p| && sv <= i < |v| && i - sv == j - (sp + 1)
    requires Aligned(v, p, sp + 1, j, i)
    requires p[j] == '*' && v[i] != '*'
    requires AtOrAfter(v, p, sv + 1, sp + 1)
    ensures AtOrAfter(v, p, i, j + 1)
  {
    var a :| sv < a <= |v| && At(v, p, a, sp + 1);
    Slide(v, p, sp + 1, j, i, a);
    var b :| i <= b <= |v| && At(v, p, b, j);
    if b < |v| && v[b] == '*' {
      AtStep(v, p, b, j);
    } else {
      AtStar(v, p, b, j);
    }
  }

  /** Loop invariant of the matcher: the answer is decided by continuing at
      `(i, j)` or, once a star was met, by restarting after it further right.
      The star indices are options in the source; -1 is absent. */
  ghost predicate Undecided(v: string, p: string, i: nat, j: nat, sp: int, sv: int) {
    && i <= |v| && j <= |p| && -1 <= sp < j && -1 <= sv <= i
    && (sp < 0 <==> sv < 0)
    && (sp < 0 ==> (LiteralStarMatches(v, p) <==> At(v, p, i, j)))
    && (sp >= 0 ==>
          && i - sv == j - (sp + 1)
          && Aligned(v, p, sp + 1, j, i)
          && (LiteralStarMatches(v, p) <==> At(v, p, i, j) || AtOrAfter(v, p, sv + 1, sp + 1)))
  }

  lemma OnCharacter(v: string, p: string, i: nat, j: nat, sp: int, sv: int)
    requires Undecided(v, p, i, j, sp, sv)
    requires i < |v| && j < |p| && (p[j] == '?' || p[j] == v[i])
    ensures Undecided(v, p, i + 1, j + 1, sp, sv)
  {
    AtStep(v, p, i, j);
  }

  lemma OnStar(v: string, p: string, i: nat, j: nat, sp: int, sv: int)
    requires Undecided(v, p, i, j, sp, sv)
    requires i < |v| && j < |p| && p[j] == '*' && v[i] != '*'
    ensures Undecided(v, p, i, j + 1, j, i)
  {
    AtStar(v, p, i, j);
    if sp >= 0 && AtOrAfter(v, p, sv + 1, sp + 1) {
      NewStarCovers(v, p, sp, sv, i, j);
    }
    SplitFirst(v, p, i, j + 1);
  }

  lemma SplitFirst(v: string, p: string, i: nat, j: nat)
    requires i <= |v| && j <= |p|
    ensures AtOrAfter(v, p, i, j) <==> At(v, p, i, j) || AtOrAfter(v, p, i + 1, j)
  {
  }

  lemma Stuck(v: string, p: string, i: nat, j: nat)
    requires i < |v| && j <= |p|
    requires j < |p| ==> p[j] != '?' && p[j] != '*' && p[j] != v[i]
    ensures !At(v, p, i, j)
  {
    if j < |p| {
      AtMismatch(v, p, i, j);
    } else {
      AtEnd(v, p, i);
    }
  }

  lemma OnBacktrack(v: string, p: string, i: nat, j: nat, sp: int, sv: int)
    requires Undecided(v, p, i, j, sp, sv) && sp >= 0 && i < |v|
    requires j < |p| ==> p[j] != '?' && p[j] != '*' && p[j] != v[i]
    ensures Undecided(v, p, sv + 1, sp + 1, sp, sv + 1)
  {
    Stuck(v, p, i, j);
    SplitFirst(v, p, sv + 1, sp + 1);
  }

  lemma OnValueEnd(v: string, p: string, j: nat, sp: int, sv: int)
    requires Undecided(v, p, |v|, j, sp, sv)
    ensures LiteralStarMatches(v, p) <==> At(v, p, |v|, j)
  {
    if sp >= 0 && AtOrAfter(v, p, sv + 1, sp + 1) {
      var a :| sv + 1 <= a <= |v| && At(v, p, a, sp + 1);
      Slide(v, p, sp + 1, j, |v|, a);
    }
  }

  /** `glob_matches`. */
  method GlobMatches(value: string, pattern: string) returns (matched: bool)
    ensures matched <==> Accepts(value, pattern)
  {
    if pattern == "*" {
      return true;
    }
    var i, j: nat := 0, 0;
    var starPattern: int, starValue: int := -1, -1;
    assert value[0..] == value && pattern[0..] == pattern;
    while i < |value|
      invariant Undecided(value, pattern, i, j, starPattern, starValue)
      decreases |pattern| - starPattern, |value| - starValue, |value| - i
    {
      if j < |pattern| && (pattern[j] == '?' || pattern[j] == value[i]) {
        OnCharacter(value, pattern, i, j, starPattern, starValue);
        i, j := i + 1, j + 1;
      } else if j < |pattern| && pattern[j] == '*' {
        OnStar(value, pattern, i, j, starPattern, starValue);
        starPattern, starValue := j, i;
        j := j + 1;
      } else if starPattern >= 0 {
        OnBacktrack(value, pattern, i, j, starPattern, starValue);
        j := starPattern + 1;
        starValue := starValue + 1;
        i := starValue;
      } else {
        Stuck(value, pattern, i, j);
        return false;
      }
    }
    OnValueEnd(value, pattern, j, starPattern, starValue);
    matched := TrailingStars(value, pattern, j);
  }

  /** The loop after the value is used up: only stars may remain. */
  method TrailingStars(value: string, pattern: string, start: nat) returns (matched: bool)
    requires start <= |pattern|
    ensures matched <==> At(value, pattern, |value|, start)
  {
    var j := start;
    while j < |pattern| && pattern[j] == '*'
      invariant start <= j <= |pattern|
      invariant At(value, pattern, |value|, start) <==> At(value, pattern, |value|, j)
    {
      AtStar(value, pattern, |value|, j);
      OnlyEnd(value, pattern, j + 1);
      j := j + 1;
    }
    matched := j == |pattern|;
  }

  lemma OnlyEnd(v: string, p: string, j: nat)
    requires j <= |p|
    ensures AtOrAfter(v, p, |v|, j) <==> At(v, p, |v|, j)
  {
  }

  /** Nothing outside the usual meaning is ever accepted. */
  lemma {:induction false} Sound(v: string, p: string)
    requires Accepts(v, p)
    ensures Matches(v, p)
    decreases |p|
  {
    if p == "*" {
      assert v[|v|..] == "" && Matches(v[|v|..], p[1..]);
    } else {
      SoundLiteral(v, p);
    }
  }

  lemma {:induction false} SoundLiteral(v: string, p: string)
    requires LiteralStarMatches(v, p)
    ensures Matches(v, p)
    decreases |p|
  {
    if p != "" {
      if p[0] == '*' && (v == "" || v[0] != '*') {
        var k :| 0 <= k <= |v| && LiteralStarMatches(v[k..], p[1..]);
        SoundLiteral(v[k..], p[1..]);
      } else {
        SoundLiteral(v[1..], p[1..]);
        if p[0] == '*' {
          assert Matches(v[1..], p[1..]);
        }
      }
    }
  }

  lemma {:induction false} Complete(v: string, p: string)
    requires '*' !in v && Matches(v, p)
    ensures LiteralStarMatches(v, p)
    decreases |p|
  {
    if p != "" {
      if p[0] == '*' {
        var k :| 0 <= k <= |v| && Matches(v[k..], p[1..]);
        Complete(v[k..], p[1..]);
      } else {
        Complete(v[1..], p[1..]);
      }
    }
  }

  function Run(c: char, n: nat): (s: string)
    ensures |s| == n && forall i | 0 <= i < n :: s[i] == c
  {
    seq(n, _ => c)
  }

  lemma {:induction false} QuestionsMatch(v: string, n: nat)
    ensures Matches(v, Run('?', n)) <==> |v| == n
    ensures LiteralStarMatches(v, Run('?', n)) <==> |v| == n
    decreases n
  {
    if n > 0 {
      assert Run('?', n)[1..] == Run('?', n - 1);
      if v != "" {
        QuestionsMatch(v[1..], n - 1);
      }
    }
  }

  /** A pattern the matcher gets wrong on `v`: as many `?` as `v` has
      characters, with one `*` put where `v` has its `*` at index `i`. */
  function Misread(v: string, i: nat): (p: string)
    requires i < |v| && v[i] == '*'
    ensures |p| == |v| + 1 && p[i] == '*'
  {
    Run('?', i) + "*" + Run('?', |v| - i)
  }

  lemma {:induction false} MisreadIsRejected(v: string, i: nat)
    requires i < |v| && v[i] == '*'
    ensures Matches(v, Misread(v, i)) && !Accepts(v, Misread(v, i))
    decreases i
  {
    var p := Misread(v, i);
    if i == 0 {
      assert p[1..] == Run('?', |v|);
      assert v[0..] == v;
      QuestionsMatch(v, |v|);
      QuestionsMatch(v[1..], |v|);
      assert Matches(v[0..], p[1..]);
    } else {
      assert p[1..] == Misread(v[1..], i - 1);
      MisreadIsRejected(v[1..], i - 1);
    }
  }

  /** On a given value the matcher is exact for every pattern precisely when the
      value holds no `*`. */
  lemma ExactForValue(v: string)
    ensures (forall p: string :: Accepts(v, p) <==> Matches(v, p)) <==> '*' !in v
  {
    forall p: string
      ensures Accepts(v, p) ==> Matches(v, p)
      ensures '*' !in v && Matches(v, p) ==> Accepts(v, p)
    {
      if Accepts(v, p) {
        Sound(v, p);
      }
      if '*' !in v && Matches(v, p) {
        Complete(v, p);
      }
    }
    if '*' in v {
      var i :| 0 <= i < |v| && v[i] == '*';
      MisreadIsRejected(v, i);
    }
  }

  /** A value the matcher gets wrong for `p`: every `*` doubled, every `?` a `*`. */
  function Doubled(p: string): (v: string) {
    if p == "" then ""
    else (if p[0] == '*' then "**" else if p[0] == '?' then "*" else [p[0]]) + Doubled(p[1..])
  }

  lemma {:induction false} DoubledMatches(p: string)
    ensures Matches(Doubled(p), p)
    decreases |p|
  {
    if p != "" {
      DoubledMatches(p[1..]);
      var v := Doubled(p);
      if p[0] == '*' {
        assert v[2..] == Doubled(p[1..]);
      } else {
        assert v[1..] == Doubled(p[1..]);
      }
    }
  }

  /** Once a star has been taken as one character, the value keeps surplus `*`s
      in front of every later character, so no star is ever free. */
  lemma {:induction false} SurplusMany(p: string, n: nat)
    requires n > 0
    ensures !LiteralStarMatches(Run('*', n) + Doubled(p), p)
    decreases |p|
  {
    var v := Run('*', n) + Doubled(p);
    if p != "" && (p[0] == '*' || p[0] == '?') {
      var m := if p[0] == '*' then n + 1 else n;
      assert v[1..] == Run('*', m) + Doubled(p[1..]);
      SurplusMany(p[1..], m);
    }
  }

  lemma {:induction false} DoubledIsRejected(p: string)
    requires '*' in p
    ensures !LiteralStarMatches(Doubled(p), p)
    decreases |p|
  {
    var v := Doubled(p);
    if p[0] == '*' {
      assert v[1..] == Run('*', 1) + Doubled(p[1..]);
      SurplusMany(p[1..], 1);
    } else {
      assert v[1..] == Doubled(p[1..]);
      DoubledIsRejected(p[1..]);
    }
  }

  lemma {:induction false} NoStarExact(v: string, p: string)
    requires '*' !in p
    ensures LiteralStarMatches(v, p) <==> Matches(v, p)
    decreases |p|
  {
    if p != "" && v != "" {
      NoStarExact(v[1..], p[1..]);
    }
  }

  /** A given pattern is exact for every value precisely when it is the lone `*`
      or holds no `*` at all. */
  lemma ExactForPattern(p: string)
    ensures (forall v: string :: Accepts(v, p) <==> Matches(v, p)) <==> p == "*" || '*' !in p
  {
    forall v: string | p == "*" || '*' !in p
      ensures Accepts(v, p) <==> Matches(v, p)
    {
      if p == "*" {
        Sound(v, p);
      } else {
        NoStarExact(v, p);
      }
    }
    if p != "*" && '*' in p {
      DoubledMatches(p);
      DoubledIsRejected(p);
      assert !(Accepts(Doubled(p), p) <==> Matches(Doubled(p), p));
    }
  }
}
