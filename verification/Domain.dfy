/** Domain normalization and wildcard patterns of the egress crate, and what
    they mean on label lists. */
module Domain {
  import opened Prelude
  import opened Splitting

  const MAX_DOMAIN_OCTETS := 253
  const MAX_LABEL_OCTETS := 63

  datatype DomainError = Empty | TooLong | InvalidLabel(text: string) | InvalidCharacter(text: string)

  /** Octets of a character in UTF-8. */
  function Utf8Len(c: char): (n: nat)
    ensures 1 <= n <= 4
  {
    if c as int < 0x80 then 1 else if c as int < 0x800 then 2 else if c as int < 0x10000 then 3 else 4
  }

  /** `str::len`. */
  function Octets(s: string): (n: nat)
    ensures n >= |s|
  {
    if s == "" then 0 else Utf8Len(s[0]) + Octets(s[1..])
  }

  /** Unicode `White_Space`, what `str::trim` removes. */
  predicate IsWhitespace(c: char) {
    var n := c as int;
    || 9 <= n <= 13 || n == 0x20 || n == 0x85 || n == 0xA0 || n == 0x1680 || 0x2000 <= n <= 0x200A
    || n == 0x2028 || n == 0x2029 || n == 0x202F || n == 0x205F || n == 0x3000
  }

  function TrimStart(s: string): (r: string) {
    if s != "" && IsWhitespace(s[0]) then TrimStart(s[1..]) else s
  }

  function TrimEnd(s: string): (r: string) {
    if s != "" && IsWhitespace(s[|s| - 1]) then TrimEnd(s[..|s| - 1]) else s
  }

  function Trim(s: string): (r: string) {
    TrimEnd(TrimStart(s))
  }

  function StripRootDot(s: string): (r: string) {
    if s != "" && s[|s| - 1] == '.' then s[..|s| - 1] else s
  }

  predicate LabelCharacter(c: char) {
    'a' <= c <= 'z' || 'A' <= c <= 'Z' || '0' <= c <= '9' || c == '-'
  }

  predicate LabelCharacters(text: string)
    requires text != ""
  {
    && (forall i | 0 <= i < |text| :: LabelCharacter(text[i]))
    && text[0] != '-' && text[|text| - 1] != '-'
  }

  /** The checking loop of `normalize_domain`: the first offending label. */
  function CheckLabels(labels: seq<string>): (r: Option<DomainError>) {
    if labels == [] then None
    else if labels[0] == "" || Octets(labels[0]) > MAX_LABEL_OCTETS then Some(InvalidLabel(labels[0]))
    else if !LabelCharacters(labels[0]) then Some(InvalidCharacter(labels[0]))
    else CheckLabels(labels[1..])
  }

  function NormalizeDomain(raw: string): (r: Result<string, DomainError>) {
    var trimmed := StripRootDot(Trim(raw));
    if trimmed == "" then Failure(Empty)
    else
      var lower := Lower(trimmed);
      if Octets(lower) > MAX_DOMAIN_OCTETS then Failure(TooLong)
      else match CheckLabels(Split(lower, '.'))
        case Some(error) => Failure(error)
        case None => Success(lower)
  }

  function NormalizePattern(raw: string): (r: Result<string, DomainError>) {
    var trimmed := Trim(raw);
    if "*." <= trimmed then
      var rest :- NormalizeDomain(trimmed[2..]);
      if Octets("*." + rest) > MAX_DOMAIN_OCTETS then Failure(TooLong) else Success("*." + rest)
    else NormalizeDomain(trimmed)
  }

  predicate EndsWith(s: string, suffix: string) {
    |suffix| <= |s| && s[|s| - |suffix|..] == suffix
  }

  function PatternMatches(pattern: string, candidate: string): (r: bool) {
    if "*." <= pattern then
      var dotted := "." + pattern[2..];
      Octets(candidate) > Octets(dotted) && EndsWith(candidate, dotted)
    else pattern == candidate
  }

  function LeftmostLabel(name: string): (r: string) {
    Split(name, '.')[0]
  }

  // ---- Meaning --------------------------------------------------------------

  /** A label within section 2.3.4 of RFC 1035, in lower case. */
  predicate IsLabel(text: string) {
    && 1 <= |text| <= MAX_LABEL_OCTETS
    && (forall i | 0 <= i < |text| :: 'a' <= text[i] <= 'z' || '0' <= text[i] <= '9' || text[i] == '-')
    && text[0] != '-' && text[|text| - 1] != '-'
  }

  /** The canonical names: dot-separated labels, at most 253 octets in all. */
  ghost predicate IsNormalized(name: string) {
    && |name| <= MAX_DOMAIN_OCTETS
    && forall i | 0 <= i < |Split(name, '.')| :: IsLabel(Split(name, '.')[i])
  }

  predicate Ascii(s: string) {
    forall i | 0 <= i < |s| :: s[i] as int < 0x80
  }

  lemma {:induction false} OctetsAscii(s: string)
    requires Ascii(s)
    ensures Octets(s) == |s|
  {
    if s != "" {
      OctetsAscii(s[1..]);
    }
  }

  lemma {:induction false} CheckLabelsMeaning(labels: seq<string>)
    requires forall i | 0 <= i < |labels| :: Lower(labels[i]) == labels[i]
    ensures CheckLabels(labels).None? <==> forall i | 0 <= i < |labels| :: IsLabel(labels[i])
  {
    if labels != [] {
      CheckLabelsMeaning(labels[1..]);
      var text := labels[0];
      if text != "" && LabelCharacters(text) {
        OctetsAscii(text);
        forall i | 0 <= i < |text| ensures !('A' <= text[i] <= 'Z') {
          assert Lower(text)[i] == LowerChar(text[i]);
        }
      }
      assert IsLabel(text) ==> LabelCharacters(text) && Ascii(text);
      if IsLabel(text) {
        OctetsAscii(text);
      }
      assert forall i | 0 <= i < |labels| - 1 :: labels[1..][i] == labels[i + 1];
      assert forall i | 1 <= i < |labels| :: labels[i] == labels[1..][i - 1];
    }
  }

  lemma NormalizedCharacter(name: string, i: nat)
    requires IsNormalized(name) && i < |name|
    ensures name[i] == '.' || 'a' <= name[i] <= 'z' || '0' <= name[i] <= '9' || name[i] == '-'
  {
    if name[i] != '.' {
      var j := InSomePart(name, '.', name[i]);
      assert IsLabel(Split(name, '.')[j]);
    }
  }

  lemma NormalizedCharacters(name: string)
    requires IsNormalized(name)
    ensures name != "" && Ascii(name) && Lower(name) == name && Octets(name) == |name|
    ensures forall i | 0 <= i < |name| :: !IsWhitespace(name[i])
    ensures name[|name| - 1] != '.' && name[0] != '.' && name[0] != '*'
  {
    forall i | 0 <= i < |name|
      ensures name[i] == '.' || 'a' <= name[i] <= 'z' || '0' <= name[i] <= '9' || name[i] == '-'
    {
      NormalizedCharacter(name, i);
    }
    OctetsAscii(name);
    assert Lower(name) == name;
    NormalizedEnds(name);
  }

  lemma NormalizedEnds(name: string)
    requires IsNormalized(name)
    ensures name != "" && name[|name| - 1] != '.' && name[0] != '.'
  {
    var labels := Split(name, '.');
    JoinSplit(name, '.');
    assert IsLabel(labels[0]) && IsLabel(labels[|labels| - 1]);
    JoinEnds(labels, '.');
  }

  lemma {:induction false} JoinEnds(labels: seq<string>, d: char)
    requires labels != [] && labels[0] != "" && labels[|labels| - 1] != ""
    ensures Join(labels, d) != ""
    ensures Join(labels, d)[0] == labels[0][0]
    ensures var last := labels[|labels| - 1];
            Join(labels, d)[|Join(labels, d)| - 1] == last[|last| - 1]
  {
    if |labels| > 1 {
      var tail := labels[1..];
      var last := labels[|labels| - 1];
      JoinLast(tail, d);
      var s := Join(labels, d);
      assert s == labels[0] + [d] + Join(tail, d);
      assert s[|s| - 1] == Join(tail, d)[|Join(tail, d)| - 1];
    }
  }

  lemma {:induction false} JoinLast(labels: seq<string>, d: char)
    requires labels != [] && labels[|labels| - 1] != ""
    ensures Join(labels, d) != ""
    ensures var last := labels[|labels| - 1];
            Join(labels, d)[|Join(labels, d)| - 1] == last[|last| - 1]
  {
    if |labels| > 1 {
      JoinLast(labels[1..], d);
    }
  }

  lemma {:induction false} LowerOfSplit(s: string)
    requires Lower(s) == s
    ensures forall i | 0 <= i < |Split(s, '.')| :: Lower(Split(s, '.')[i]) == Split(s, '.')[i]
  {
    var labels := Split(s, '.');
    forall i | 0 <= i < |labels| ensures Lower(labels[i]) == labels[i] {
      forall j | 0 <= j < |labels[i]| ensures LowerChar(labels[i][j]) == labels[i][j] {
        var c := labels[i][j];
        PartWithin(s, '.', i, c);
        var k :| 0 <= k < |s| && s[k] == c;
        assert Lower(s)[k] == LowerChar(s[k]);
      }
    }
  }

  lemma LowerIdempotent(s: string)
    ensures Lower(Lower(s)) == Lower(s)
  {
  }

  lemma TrimNothing(s: string)
    requires s == "" || (!IsWhitespace(s[0]) && !IsWhitespace(s[|s| - 1]))
    ensures Trim(s) == s
  {
  }

  /** Normalization returns canonical names only, and on canonical names it is
      the identity; so it is idempotent, and its fixed points are exactly the
      canonical names. */
  lemma NormalizeFixpoints(raw: string)
    ensures NormalizeDomain(raw).Success? ==>
              IsNormalized(NormalizeDomain(raw).value) &&
              NormalizeDomain(NormalizeDomain(raw).value) == NormalizeDomain(raw)
    ensures NormalizeDomain(raw) == Success(raw) <==> IsNormalized(raw)
  {
    if NormalizeDomain(raw).Success? {
      var lower := Lower(StripRootDot(Trim(raw)));
      LowerIdempotent(StripRootDot(Trim(raw)));
      LowerOfSplit(lower);
      CheckLabelsMeaning(Split(lower, '.'));
      NormalizeIdentity(lower);
    }
    if IsNormalized(raw) {
      NormalizeIdentity(raw);
    }
  }

  lemma NormalizeIdentity(name: string)
    requires IsNormalized(name)
    ensures NormalizeDomain(name) == Success(name)
  {
    NormalizedCharacters(name);
    TrimNothing(name);
    LowerOfSplit(name);
    CheckLabelsMeaning(Split(name, '.'));
  }

  /** Spelling does not matter: any letter case, surrounding white space and one
      root dot lead back to the canonical name. */
  lemma SpellingIrrelevant(name: string, raw: string, before: string, after: string, dot: bool)
    requires IsNormalized(name) && Lower(raw) == name
    requires forall i | 0 <= i < |before| :: IsWhitespace(before[i])
    requires forall i | 0 <= i < |after| :: IsWhitespace(after[i])
    ensures NormalizeDomain(before + raw + (if dot then "." else "") + after) == Success(name)
  {
    NormalizedCharacters(name);
    var core := raw + (if dot then "." else "");
    var spelled := before + raw + (if dot then "." else "") + after;
    assert spelled == before + (core + after);
    assert forall i | 0 <= i < |raw| :: name[i] == LowerChar(raw[i]);
    assert !IsWhitespace(LowerChar(raw[0])) && !IsWhitespace(LowerChar(raw[|raw| - 1]));
    assert (core + after)[0] == raw[0];
    TrimStartPrefix(before, core + after);
    TrimEndSuffix(core, after);
    assert StripRootDot(core) == raw by {
      if !dot {
        assert name[|name| - 1] == LowerChar(raw[|raw| - 1]);
      }
    }
    LowerOfSplit(name);
    CheckLabelsMeaning(Split(name, '.'));
  }

  lemma {:induction false} TrimStartPrefix(before: string, s: string)
    requires forall i | 0 <= i < |before| :: IsWhitespace(before[i])
    requires s != "" && !IsWhitespace(s[0])
    ensures TrimStart(before + s) == s
  {
    if before == "" {
      assert before + s == s;
    } else {
      assert (before + s)[1..] == before[1..] + s;
      TrimStartPrefix(before[1..], s);
    }
  }

  lemma {:induction false} TrimEndSuffix(s: string, after: string)
    requires forall i | 0 <= i < |after| :: IsWhitespace(after[i])
    requires s != "" && !IsWhitespace(s[|s| - 1])
    ensures TrimEnd(s + after) == s
    decreases |after|
  {
    if after == "" {
      assert s + after == s;
    } else {
      assert (s + after)[..|s + after| - 1] == s + after[..|after| - 1];
      TrimEndSuffix(s, after[..|after| - 1]);
    }
  }

  ghost predicate AllWhitespace(s: string) {
    forall i | 0 <= i < |s| :: IsWhitespace(s[i])
  }

  /** `raw` is `core` with white space around it and at most one root dot. */
  ghost predicate Spells(raw: string, before: string, core: string, dot: bool, after: string) {
    AllWhitespace(before) && AllWhitespace(after) && raw == before + core + (if dot then "." else "") + after
  }

  lemma {:induction false} TrimStartSplits(s: string) returns (before: string)
    ensures AllWhitespace(before) && s == before + TrimStart(s)
  {
    before := "";
    if s != "" && IsWhitespace(s[0]) {
      var rest := TrimStartSplits(s[1..]);
      before := [s[0]] + rest;
      assert s == [s[0]] + s[1..];
    }
  }

  lemma {:induction false} TrimEndSplits(s: string) returns (after: string)
    ensures AllWhitespace(after) && s == TrimEnd(s) + after
    decreases |s|
  {
    after := "";
    if s != "" && IsWhitespace(s[|s| - 1]) {
      var rest := TrimEndSplits(s[..|s| - 1]);
      after := rest + [s[|s| - 1]];
      assert s == s[..|s| - 1] + [s[|s| - 1]];
    }
  }

  lemma TrimmedSpells(raw: string) returns (before: string, core: string, dot: bool, after: string)
    ensures core == StripRootDot(Trim(raw)) && Spells(raw, before, core, dot, after)
  {
    hide IsWhitespace, TrimStart, TrimEnd;
    before := TrimStartSplits(raw);
    after := TrimEndSplits(TrimStart(raw));
    var trimmed := Trim(raw);
    core, dot := StripRootDot(trimmed), trimmed != "" && trimmed[|trimmed| - 1] == '.';
    assert trimmed == core + (if dot then "." else "");
    assert raw == before + core + (if dot then "." else "") + after;
  }

  ghost predicate SpellingOf(raw: string, name: string) {
    exists before, core, dot, after :: Spells(raw, before, core, dot, after) && Lower(core) == name
  }

  /** What normalization accepts, and what it makes of it: exactly the spellings of
      canonical names. */
  lemma NormalizeExactly(raw: string, name: string)
    ensures NormalizeDomain(raw) == Success(name) <==> IsNormalized(name) && SpellingOf(raw, name)
  {
    hide IsNormalized, CheckLabels, Split, Trim, StripRootDot, Spells;
    NormalizeFixpoints(raw);
    var before, core, dot, after := TrimmedSpells(raw);
    if IsNormalized(name) && SpellingOf(raw, name) {
      SpelledNormalizes(raw, name);
    }
  }

  lemma SpelledNormalizes(raw: string, name: string)
    requires IsNormalized(name) && SpellingOf(raw, name)
    ensures NormalizeDomain(raw) == Success(name)
  {
    hide IsNormalized, NormalizeDomain;
    var before, core, dot, after :| Spells(raw, before, core, dot, after) && Lower(core) == name;
    SpellingIrrelevant(name, core, before, after, dot);
  }

  /** A canonical name fits the 255-octet wire form of section 2.3.4 of RFC 1035. */
  lemma {:induction false} WireLengthFits(name: string)
    requires IsNormalized(name)
    ensures WireLength(Split(name, '.')) <= 255
  {
    JoinSplit(name, '.');
    WireLengthOfJoin(Split(name, '.'));
  }

  /** One length octet per label, the label, and the root octet. */
  function WireLength(labels: seq<string>): (n: nat) {
    if labels == [] then 1 else 1 + |labels[0]| + WireLength(labels[1..])
  }

  lemma {:induction false} WireLengthOfJoin(labels: seq<string>)
    requires labels != []
    ensures WireLength(labels) == |Join(labels, '.')| + 2
  {
    if |labels| > 1 {
      WireLengthOfJoin(labels[1..]);
    }
  }

  /** The labels of a canonical name extend those of another by at least one
      on the left. */
  ghost predicate StrictSubdomain(c: string, s: string) {
    var cs, ss := Split(c, '.'), Split(s, '.');
    |ss| < |cs| && cs[|cs| - |ss|..] == ss
  }

  /** `*.s` matches a canonical name exactly when its labels are one or more
      labels followed by the labels of `s`: never `s` itself, never a name that
      only shares the spelling of a suffix. */
  lemma WildcardMeansStrictSubdomain(s: string, c: string)
    requires IsNormalized(c)
    ensures PatternMatches("*." + s, c) <==> StrictSubdomain(c, s)
  {
    var dotted := "." + s;
    assert ("*." + s)[2..] == s;
    if PatternMatches("*." + s, c) {
      SuffixToLabels(s, c);
    }
    if StrictSubdomain(c, s) {
      LabelsToSuffix(s, c);
      SuffixOctets(c, dotted);
    }
  }

  lemma SuffixOctets(c: string, suffix: string)
    requires IsNormalized(c) && EndsWith(c, suffix)
    ensures Octets(c) == |c| && Octets(suffix) == |suffix|
  {
    NormalizedCharacters(c);
    forall i | 0 <= i < |suffix| ensures suffix[i] as int < 0x80 {
      assert suffix[i] == c[|c| - |suffix| + i];
    }
    OctetsAscii(suffix);
  }

  /** A pattern covers a name: it is that name, or the name lies strictly below it. */
  ghost predicate Covers(pattern: string, name: string) {
    if "*." <= pattern then StrictSubdomain(name, pattern[2..]) else pattern == name
  }

  lemma MatchesExactly(pattern: string, name: string)
    requires IsNormalized(name)
    ensures PatternMatches(pattern, name) <==> Covers(pattern, name)
  {
    if "*." <= pattern {
      assert pattern == "*." + pattern[2..];
      WildcardMeansStrictSubdomain(pattern[2..], name);
    }
  }

  lemma SuffixToLabels(s: string, c: string)
    requires EndsWith(c, "." + s)
    ensures StrictSubdomain(c, s)
  {
    var prefix := c[..|c| - |s| - 1];
    assert c == prefix + ['.'] + s;
    SplitConcat(prefix, s, '.');
  }

  lemma LabelsToSuffix(s: string, c: string)
    requires IsNormalized(c) && StrictSubdomain(c, s)
    ensures EndsWith(c, "." + s) && |c| > |s| + 1
  {
    var cs, ss := Split(c, '.'), Split(s, '.');
    var n := |cs| - |ss|;
    assert IsLabel(cs[n - 1]);
    JoinSplit(c, '.');
    JoinSplit(s, '.');
    JoinedSuffix(cs, n);
  }

  lemma JoinedSuffix(labels: seq<string>, n: nat)
    requires 0 < n < |labels| && labels[n - 1] != ""
    ensures EndsWith(Join(labels, '.'), "." + Join(labels[n..], '.'))
    ensures |Join(labels, '.')| > |Join(labels[n..], '.')| + 1
  {
    var xs, ss := labels[..n], labels[n..];
    assert labels == xs + ss;
    JoinConcat(xs, ss, '.');
    JoinLast(xs, '.');
    assert Join(labels, '.') == Join(xs, '.') + ("." + Join(ss, '.'));
  }

  /** Patterns are canonical too: an exact pattern is a canonical name, a
      wildcard is `*.` before one, and normalizing again changes nothing. */
  lemma PatternFixpoints(raw: string)
    requires NormalizePattern(raw).Success?
    ensures var p := NormalizePattern(raw).value;
            && NormalizePattern(p) == Success(p)
            && |p| <= MAX_DOMAIN_OCTETS
            && (IsNormalized(p) || ("*." <= p && IsNormalized(p[2..])))
  {
    var trimmed := Trim(raw);
    if "*." <= trimmed {
      NormalizeFixpoints(trimmed[2..]);
      WildcardFixpoint(NormalizeDomain(trimmed[2..]).value);
    } else {
      NormalizeFixpoints(trimmed);
      ExactFixpoint(NormalizeDomain(trimmed).value);
    }
  }

  lemma WildcardFixpoint(rest: string)
    requires IsNormalized(rest) && Octets("*." + rest) <= MAX_DOMAIN_OCTETS
    ensures NormalizePattern("*." + rest) == Success("*." + rest)
    ensures |rest| + 2 <= MAX_DOMAIN_OCTETS && ("*." + rest)[2..] == rest
  {
    hide NormalizePattern, NormalizeDomain, Trim, IsNormalized, Octets;
    var p := "*." + rest;
    assert p[2..] == rest;
    assert Octets(p) == |p| by {
      NormalizedCharacters(rest);
      OctetsAscii(p);
    }
    WildcardTrimmed(rest);
    NormalizeIdentity(rest);
    WildcardNormalizes(p, rest);
  }

  lemma WildcardNormalizes(p: string, rest: string)
    requires p == "*." + rest && Trim(p) == p && Octets(p) <= MAX_DOMAIN_OCTETS
    requires NormalizeDomain(rest) == Success(rest)
    ensures NormalizePattern(p) == Success(p)
  {
    hide Octets, NormalizeDomain, Trim;
    assert p[2..] == rest;
  }

  lemma WildcardTrimmed(rest: string)
    requires IsNormalized(rest)
    ensures Trim("*." + rest) == "*." + rest
  {
    NormalizedCharacters(rest);
    var p := "*." + rest;
    assert p[0] == '*' && p[|p| - 1] == rest[|rest| - 1];
    TrimNothing(p);
  }

  lemma ExactFixpoint(name: string)
    requires IsNormalized(name)
    ensures NormalizePattern(name) == Success(name)
  {
    NormalizedCharacters(name);
    TrimNothing(name);
    NormalizeIdentity(name);
  }
}
