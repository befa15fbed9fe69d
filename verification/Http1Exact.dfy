/** The parser decides exactly one thing: whether the text stands for a well-formed
    request, and then for which. */
module Http1Exact {
  import opened Prelude
  import opened Splitting
  import opened Http1
  import opened Http1RoundTrip
  import opened Numerals
  import opened Http1Reader
  import Utf8

  lemma FieldWritten(line: string, count: nat, max: nat)
    requires ParseField(line, count, max).Success?
    ensures Writes(line, ParseField(line, count, max).value)
  {
    var colon := Position(line, ':').value;
    hide Token, Trim, Lower, HeaderValue;
    assert WritesAt(line, colon, ParseField(line, count, max).value);
  }

  /** Line `i` of the head, without its line end. */
  ghost predicate LineIs(raw: seq<string>, i: nat, line: string)
    requires i < |raw|
  {
    LineAt(raw, i) == Success(line)
  }

  /** The loop takes one field from each line. */
  lemma {:induction false} LoopReads(headers: seq<Header>, raw: seq<string>, i: nat, max: nat)
    returns (lines: seq<string>)
    requires FieldsOk(headers, max) && i <= |raw|
    requires AddLines(After(headers), raw, i, max).Success?
    ensures var all := AddLines(After(headers), raw, i, max).value.headers;
            && |lines| == |raw| - i && |all| == |headers| + |lines| && headers <= all
            && forall j | 0 <= j < |lines| ::
                 LineIs(raw, i + j, lines[j]) && Writes(lines[j], all[|headers| + j])
    decreases |raw| - i
  {
    hide After, FieldsOk, ParseField, Admit, LineAt, Writes;
    AfterHeaders(headers);
    if i == |raw| {
      lines := [];
    } else {
      var line := LineAt(raw, i).value;
      var field := ParseField(line, |headers|, max).value;
      ParsedField(line, |headers|, max);
      AdmitExactly(headers, field, max);
      FieldWritten(line, |headers|, max);
      var rest := LoopReads(headers + [field], raw, i + 1, max);
      lines := [line] + rest;
      FirstLine(headers, field, raw, i, line, rest, AddLines(After(headers), raw, i, max).value.headers);
    }
  }

  lemma FirstLine(headers: seq<Header>, field: Header, raw: seq<string>, i: nat, line: string, rest: seq<string>,
                  all: seq<Header>)
    requires i < |raw| && |rest| == |raw| - i - 1 && |all| == |headers| + 1 + |rest| && headers + [field] <= all
    requires LineIs(raw, i, line) && Writes(line, field)
    requires forall j | 0 <= j < |rest| ::
               LineIs(raw, i + 1 + j, rest[j]) && Writes(rest[j], all[|headers + [field]| + j])
    ensures var lines := [line] + rest;
            headers <= all && forall j | 0 <= j < |lines| ::
              LineIs(raw, i + j, lines[j]) && Writes(lines[j], all[|headers| + j])
  {
    hide LineIs, Writes;
    var lines := [line] + rest;
    assert (headers + [field])[|headers|] == all[|headers|];
    forall j | 0 <= j < |lines| ensures LineIs(raw, i + j, lines[j]) && Writes(lines[j], all[|headers| + j]) {
      if j > 0 {
        assert lines[j] == rest[j - 1];
        assert LineIs(raw, i + 1 + (j - 1), rest[j - 1]);
        assert |headers + [field]| + (j - 1) == |headers| + j;
      }
    }
  }

  /** The lines, joined with their line ends, are the head. */
  lemma {:induction false} LinesJoined(raw: seq<string>, lines: seq<string>)
    requires raw != [] && |lines| == |raw|
    requires forall i | 0 <= i < |raw| :: raw[i] == if i == |raw| - 1 then lines[i] else lines[i] + "\r"
    ensures JoinCrlf(lines) == Join(raw, '\n')
  {
    if |raw| == 1 {
      assert raw[0] == lines[0];
    } else {
      var tail, rest := raw[1..], lines[1..];
      forall i | 0 <= i < |tail| ensures tail[i] == if i == |tail| - 1 then rest[i] else rest[i] + "\r" {
        assert tail[i] == raw[i + 1] && rest[i] == lines[i + 1];
      }
      LinesJoined(tail, rest);
      assert raw[0] == lines[0] + "\r";
      assert lines[0] + "\r" + ['\n'] + Join(tail, '\n') == lines[0] + "\r\n" + Join(tail, '\n');
    }
  }

  lemma LineWithEnd(raw: seq<string>, i: nat, line: string)
    requires i < |raw| && LineIs(raw, i, line)
    ensures raw[i] == if i == |raw| - 1 then line else line + "\r"
  {
    if i < |raw| - 1 {
      assert raw[i] == raw[i][..|raw[i]| - 1] + [raw[i][|raw[i]| - 1]];
    }
  }

  /** What the head of an accepted text says. */
  lemma HeadWritten(text: string, l: Limits) returns (lines: seq<string>)
    requires ParseHead(text, l).Success?
    ensures LinesOf(lines, ParseHead(text, l).value.0) && JoinCrlf(lines) == text
  {
    hide AddLines, After, FieldsOk, ParseRequestLine, LineAt, Split, Join, JoinCrlf, Writes, BareLineFeed;
    var raw := Split(text, '\n');
    var first := LineAt(raw, 0).value;
    RequestLineParsed(first, l);
    NoneYet(l.maxHeaderCount);
    var rest := LoopReads([], raw, 1, l.maxHeaderCount);
    lines := [first] + rest;
    forall i | 0 <= i < |raw| ensures raw[i] == if i == |raw| - 1 then lines[i] else lines[i] + "\r" {
      if i > 0 {
        assert LineIs(raw, 1 + (i - 1), rest[i - 1]);
      }
      LineWithEnd(raw, i, lines[i]);
    }
    LinesJoined(raw, lines);
    JoinSplit(text, '\n');
  }

  lemma NoneYet(max: nat)
    ensures After([]) == NO_HEADERS && FieldsOk([], max)
  {
  }

  /** The partner of `StandsParse`: an accepted text stands for what it is parsed to. */
  lemma ParsedStands(text: string, l: Limits) returns (lines: seq<string>)
    requires Parse(text, l).Success?
    ensures Stands(text, lines, Parse(text, l).value)
  {
    var end := FindHeaderEnd(text).value;
    hide ParseHead, JoinCrlf, LinesOf;
    lines := HeadWritten(text[..end], l);
    var r := Parse(text, l).value;
    SameLines(lines, ParseHead(text[..end], l).value.0, r.body);
    CutAtEnd(text, end);
    hide FindHeaderEnd;
  }

  lemma CutAtEnd(text: string, end: nat)
    requires EndAt(text, end)
    ensures text == text[..end] + HEADER_END + text[end + 4..]
  {
    assert text == text[..end] + text[end..end + 4] + text[end + 4..];
  }

  lemma SameLines(lines: seq<string>, r: Request, body: string)
    requires LinesOf(lines, r)
    ensures LinesOf(lines, r.(body := body))
  {
    hide Writes;
  }

  /** A text is accepted, and as this request, exactly when the request is well formed
      and the text stands for it: its request line, one line for each field, with the
      name in any case and blanks around the value, an empty line, and the body. */
  lemma ParseExactly(text: string, r: Request, l: Limits)
    ensures Parse(text, l) == Success(r) <==> WellFormed(r, l) && exists lines :: Stands(text, lines, r)
  {
    hide Parse, WellFormed, Stands;
    if Parse(text, l) == Success(r) {
      ParsedIsWellFormed(text, l);
      var lines := ParsedStands(text, l);
    }
    forall lines | WellFormed(r, l) && Stands(text, lines, r) ensures Parse(text, l) == Success(r) {
      StandsParse(text, lines, r, l);
    }
  }

  /** The length of the body is the number its Content-Length denotes, zero without one. */
  lemma BodyAsDeclared(text: string, l: Limits, i: nat)
    requires Parse(text, l).Success?
    ensures var r := Parse(text, l).value;
            && |r.body| <= l.maxBodyBytes
            && (i < |r.headers| && r.headers[i].name == "content-length" ==> Denotes(r.headers[i].value, |r.body|))
            && ((forall j | 0 <= j < |r.headers| :: r.headers[j].name != "content-length") ==> r.body == "")
  {
    hide Parse;
    ParsedIsWellFormed(text, l);
    var r := Parse(text, l).value;
    hide Denotes, FieldOk, Token, Utf8.Valid, ValidateTarget;
    if i < |r.headers| && r.headers[i].name == "content-length" {
      OnlyLength(r.headers, i);
      ContentLengthExactly(r.headers[i].value);
    }
    if forall j | 0 <= j < |r.headers| :: r.headers[j].name != "content-length" {
      NoneCounted(r.headers, "content-length");
      NothingDeclared(r.headers);
    }
  }

  lemma {:induction false} NoneCounted(headers: seq<Header>, name: string)
    requires forall j | 0 <= j < |headers| :: headers[j].name != name
    ensures Count(headers, name) == 0
  {
    if headers != [] {
      NoneCounted(headers[..|headers| - 1], name);
    }
  }

  lemma {:induction false} Counted(headers: seq<Header>, i: nat, name: string)
    requires i < |headers| && headers[i].name == name
    ensures Count(headers, name) >= 1
  {
    if i < |headers| - 1 {
      Counted(headers[..|headers| - 1], i, name);
    }
  }

  /** With one Content-Length, that is the length declared. */
  lemma {:induction false} OnlyLength(headers: seq<Header>, i: nat)
    requires i < |headers| && headers[i].name == "content-length" && Count(headers, "content-length") <= 1
    requires forall j | 0 <= j < |headers| :: FieldOk(headers[j])
    ensures ParseContentLength(headers[i].value) == Success(DeclaredLength(headers))
  {
    var n := |headers| - 1;
    var front := headers[..n];
    if i < n {
      Counted(front, i, "content-length");
      OnlyLength(front, i);
    } else {
      assert FieldOk(headers[i]);
    }
  }

  // ---- The reader ----------------------------------------------------------

  lemma WholePlan(text: string, l: Limits)
    requires Parse(text, l).Success? && |text| <= U64_MAX && FindHeaderEnd(text).value + 4 <= l.maxHeaderBytes
    ensures var plan := Plan(text, l); plan.Success? && Needed(plan.value) == |text|
  {
    hide FindHeaderEnd, ParseHead;
  }

  /** Whatever the parser accepts whole, with its header section within the limit, the
      reader accepts too, as the same request and however the transport cuts it. */
  lemma RequestsAreRead(text: string, cut: Cut, l: Limits)
    requires Parse(text, l).Success? && |text| <= U64_MAX && FindHeaderEnd(text).value + 4 <= l.maxHeaderBytes
    ensures Read(text, cut, l) == Parse(text, l)
  {
    WholePlan(text, l);
    hide Parse, Read, Plan;
    ReadOutcome(text, cut, l);
    assert text[..|text|] == text;
  }

  /** What the reader accepts begins with a text that stands for it. */
  lemma ReadStands(stream: string, cut: Cut, l: Limits) returns (n: nat, lines: seq<string>)
    requires Read(stream, cut, l).Success?
    ensures n <= |stream| && Stands(stream[..n], lines, Read(stream, cut, l).value)
    ensures WellFormed(Read(stream, cut, l).value, l)
  {
    hide Parse, Read, Plan, WellFormed, Stands;
    AcceptedIsPrefix(stream, cut, l);
    n := Needed(Plan(stream, l).value);
    lines := ParsedStands(stream[..n], l);
    ParsedIsWellFormed(stream[..n], l);
  }

  // ---- Lexical classes, from the other side --------------------------------

  /** The delimiters of section 5.6.2 of RFC 9110. */
  const DELIMITERS := "\"(),/:;<=>?@[\\]{}"

  /** A token character is any visible ASCII character that is no delimiter. */
  lemma TokenCharExactly(c: char)
    ensures TokenChar(c) <==> 33 <= c as int <= 126 && c !in DELIMITERS
  {
  }

  /** `char::is_control`. */
  predicate IsControl(c: nat) {
    c < 32 || 127 <= c <= 0x9F
  }

  ghost predicate SomeControl(points: seq<nat>) {
    exists i | 0 <= i < |points| :: IsControl(points[i])
  }

  /** The octets that a control character shows as. */
  ghost predicate ControlOctets(s: seq<nat>) {
    HasLow(s) || HasPair(s)
  }

  ghost predicate HasLow(s: seq<nat>) {
    exists i | 0 <= i < |s| :: s[i] < 32 || s[i] == 127
  }

  predicate PairAt(s: seq<nat>, i: nat) {
    i + 1 < |s| && s[i] == 0xC2 && 0x80 <= s[i + 1] <= 0x9F
  }

  ghost predicate HasPair(s: seq<nat>) {
    exists i: nat :: PairAt(s, i)
  }

  lemma OneCharacter(c: nat)
    requires Utf8.Scalar(c)
    ensures ControlOctets(Utf8.Encode(c)) <==> IsControl(c)
    ensures var s := Utf8.Encode(c); s[|s| - 1] != 0xC2
  {
    var s := Utf8.Encode(c);
    assert 0x80 <= c <= 0x9F ==> PairAt(s, 0);
    assert c < 0x80 ==> s[0] == c;
  }

  lemma LowConcat(a: seq<nat>, b: seq<nat>)
    ensures HasLow(a + b) <==> HasLow(a) || HasLow(b)
  {
    var s := a + b;
    if i :| 0 <= i < |a| && (a[i] < 32 || a[i] == 127) {
      assert s[i] == a[i];
    }
    if i :| 0 <= i < |b| && (b[i] < 32 || b[i] == 127) {
      assert s[|a| + i] == b[i];
    }
  }

  /** Where no part ends in the first octet of a pair, no pair goes across. */
  lemma PairConcat(a: seq<nat>, b: seq<nat>)
    requires a == [] || a[|a| - 1] != 0xC2
    ensures HasPair(a + b) <==> HasPair(a) || HasPair(b)
  {
    var s := a + b;
    if i: nat :| PairAt(a, i) {
      assert PairAt(s, i);
    }
    if i: nat :| PairAt(b, i) {
      assert PairAt(s, |a| + i);
    }
    if i: nat :| PairAt(s, i) {
      if i + 1 < |a| {
        assert PairAt(a, i);
      } else {
        assert i >= |a|;
        assert PairAt(b, i - |a|);
      }
    }
  }

  lemma {:induction false} ControlPoints(points: seq<nat>)
    requires Utf8.AllScalar(points)
    ensures ControlOctets(Utf8.EncodeAll(points)) <==> SomeControl(points)
  {
    hide HasLow, HasPair, Utf8.Encode, IsControl;
    if points == [] {
      NoOctets();
    } else {
      var c, rest := points[0], points[1..];
      ControlPoints(rest);
      OneCharacter(c);
      LowConcat(Utf8.Encode(c), Utf8.EncodeAll(rest));
      PairConcat(Utf8.Encode(c), Utf8.EncodeAll(rest));
      assert points == [c] + rest;
      if i :| 0 <= i < |rest| && IsControl(rest[i]) {
        assert points[i + 1] == rest[i];
      }
    }
  }

  lemma NoOctets()
    ensures !ControlOctets([])
  {
  }

  lemma ControlCodes(s: string)
    ensures HasControl(s) <==> ControlOctets(Codes(s))
  {
    var codes := Codes(s);
    if i: nat :| PairAt(codes, i) {
      assert s[i + 1 - 1] as int == 0xC2 && s[i + 1] as int == codes[i + 1];
    }
    if i :| 0 < i < |s| && s[i - 1] as int == 0xC2 && 0x80 <= s[i] as int <= 0x9F {
      assert PairAt(codes, i - 1);
    }
    if i :| 0 <= i < |codes| && (codes[i] < 32 || codes[i] == 127) {
      assert s[i] as int == codes[i];
    }
    if i :| 0 <= i < |s| && (s[i] as int < 32 || s[i] as int == 127) {
      assert codes[i] == s[i] as int;
    }
  }

  /** A target read from the octets of some characters has a control character exactly
      when one of them is one. */
  lemma ControlExactly(target: string, points: seq<nat>)
    requires Utf8.AllScalar(points) && Utf8.EncodeAll(points) == Codes(target)
    ensures HasControl(target) <==> SomeControl(points)
  {
    ControlCodes(target);
    ControlPoints(points);
    hide HasControl, ControlOctets;
  }
}
