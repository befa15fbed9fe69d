/** Printing a request and parsing it: the two are inverse on the requests the
    parser can produce. */
module Http1RoundTrip {
  import opened Prelude
  import opened Splitting
  import opened Http1
  import Utf8

  // ---- Printing ------------------------------------------------------------

  function Line(field: Header): (s: string) {
    field.name + ": " + field.value
  }

  function RequestLine(r: Request): (s: string) {
    r.verb + [' '] + (r.target + [' '] + VERSION)
  }

  function HeadLines(r: Request): (lines: seq<string>)
    ensures |lines| == |r.headers| + 1
  {
    [RequestLine(r)] + seq(|r.headers|, i requires 0 <= i < |r.headers| => Line(r.headers[i]))
  }

  function JoinCrlf(lines: seq<string>): (s: string)
    requires lines != []
  {
    if |lines| == 1 then lines[0] else lines[0] + "\r\n" + JoinCrlf(lines[1..])
  }

  function Print(r: Request): (s: string) {
    JoinCrlf(HeadLines(r)) + HEADER_END + r.body
  }

  // ---- Requests the parser can produce -------------------------------------

  predicate FieldOk(field: Header) {
    && Token(field.name) && |field.name| <= MAX_NAME_OCTETS && Lower(field.name) == field.name
    && HeaderValue(field.value) && Trimmed(field.value)
    && field.name != "transfer-encoding"
    && (field.name == "content-length" ==> ParseContentLength(field.value).Success?)
  }

  function Count(headers: seq<Header>, name: string): (n: nat) {
    if headers == [] then 0
    else Count(headers[..|headers| - 1], name) + (if headers[|headers| - 1].name == name then 1 else 0)
  }

  function DeclaredLength(headers: seq<Header>): (n: nat) {
    if headers == [] then 0
    else
      var last := headers[|headers| - 1];
      if last.name == "content-length" && ParseContentLength(last.value).Success?
      then ParseContentLength(last.value).value
      else DeclaredLength(headers[..|headers| - 1])
  }

  predicate FieldsOk(headers: seq<Header>, max: nat) {
    && |headers| <= max && Count(headers, "content-length") <= 1
    && forall i | 0 <= i < |headers| :: FieldOk(headers[i])
  }

  predicate WellFormed(r: Request, l: Limits) {
    && Token(r.verb) && r.verb != "CONNECT"
    && ' ' !in r.target && Utf8.Valid(Codes(r.target)) && ValidateTarget(r.target, l.uri).None?
    && |RequestLine(r)| <= l.maxRequestLineBytes
    && FieldsOk(r.headers, l.maxHeaderCount) && Count(r.headers, "host") == 1
    && |r.body| == DeclaredLength(r.headers) <= l.maxBodyBytes
  }

  // ---- Lines ---------------------------------------------------------------

  predicate CleanLine(line: string) {
    line != "" && '\r' !in line && '\n' !in line
  }

  predicate CleanLines(lines: seq<string>) {
    forall i | 0 <= i < |lines| :: CleanLine(lines[i])
  }

  /** No header end before the real one. */
  lemma {:induction false} NoEarlierEnd(lines: seq<string>, body: string, i: nat)
    requires lines != [] && CleanLines(lines) && i < |JoinCrlf(lines)|
    ensures !EndAt(JoinCrlf(lines) + HEADER_END + body, i)
    decreases |lines|
  {
    var first, text := lines[0], JoinCrlf(lines) + HEADER_END + body;
    assert CleanLine(first);
    assert EndAt(text, i) ==> text[i..i + 4][0] == text[i] && text[i..i + 4][2] == text[i + 2];
    if i < |first| {
      assert text[i] == first[i];
    } else if |lines| > 1 {
      var rest := JoinCrlf(lines[1..]) + HEADER_END + body;
      assert text == first + "\r\n" + rest;
      assert text[|first| + 2..] == rest;
      if i == |first| {
        assert CleanLine(lines[1]);
        FirstOfJoined(lines[1..]);
        assert text[i + 2] == rest[0] == lines[1][0];
      } else if i > |first| + 1 {
        NoEarlierEnd(lines[1..], body, i - |first| - 2);
        assert i + 4 <= |text| ==> text[i..i + 4] == rest[i - |first| - 2..i - |first| + 2];
      }
    }
  }

  lemma FirstOfJoined(lines: seq<string>)
    requires lines != [] && lines[0] != ""
    ensures JoinCrlf(lines) != "" && JoinCrlf(lines)[0] == lines[0][0]
  {
  }

  lemma HeadEnds(lines: seq<string>, body: string)
    requires lines != [] && CleanLines(lines)
    ensures FindHeaderEnd(JoinCrlf(lines) + HEADER_END + body) == Some(|JoinCrlf(lines)|)
  {
    var head := JoinCrlf(lines);
    var text := head + HEADER_END + body;
    assert text[|head|..|head| + 4] == HEADER_END;
    assert EndAt(text, |head|);
    var found := FindHeaderEnd(text);
    if found.Some? && found.value < |head| {
      NoEarlierEnd(lines, body, found.value);
    }
  }

  /** All lines but the last with their carriage return back. */
  function WithReturns(lines: seq<string>): (raw: seq<string>)
    requires lines != []
    ensures |raw| == |lines|
    ensures forall i | 0 <= i < |lines| :: raw[i] == if i == |lines| - 1 then lines[i] else lines[i] + "\r"
  {
    seq(|lines|, i requires 0 <= i < |lines| => if i == |lines| - 1 then lines[i] else lines[i] + "\r")
  }

  lemma ReturnsFirst(lines: seq<string>)
    requires |lines| > 1
    ensures WithReturns(lines) == [lines[0] + "\r"] + WithReturns(lines[1..])
  {
  }

  lemma SplitFirst(first: string, rest: string)
    requires CleanLine(first)
    ensures Split(first + "\r\n" + rest, '\n') == [first + "\r"] + Split(rest, '\n')
  {
    hide Split;
    var line := first + "\r";
    assert '\n' !in line;
    assert first + "\r\n" + rest == line + ['\n'] + rest;
    SplitConcat(line, rest, '\n');
    SplitWhole(line, '\n');
  }

  lemma SplitClean(line: string)
    requires CleanLine(line)
    ensures Split(line, '\n') == WithReturns([line])
  {
    SplitWhole(line, '\n');
  }

  lemma {:induction false} SplitCrlf(lines: seq<string>)
    requires lines != [] && CleanLines(lines)
    ensures Split(JoinCrlf(lines), '\n') == WithReturns(lines)
  {
    hide Split, CleanLine;
    var first := lines[0];
    assert CleanLine(first);
    if |lines| == 1 {
      SplitClean(first);
    } else {
      SplitCrlf(lines[1..]);
      SplitFirst(first, JoinCrlf(lines[1..]));
      ReturnsFirst(lines);
    }
  }

  lemma {:induction false} NoBareLineFeed(lines: seq<string>, i: nat)
    requires lines != [] && CleanLines(lines) && i < |JoinCrlf(lines)|
    ensures JoinCrlf(lines)[i] == '\n' ==> i > 0 && JoinCrlf(lines)[i - 1] == '\r'
    decreases |lines|
  {
    var first, text := lines[0], JoinCrlf(lines);
    assert CleanLine(first);
    if i < |first| {
      assert text[i] == first[i];
    } else if i > |first| + 1 {
      NoBareLineFeed(lines[1..], i - |first| - 2);
    }
  }

  lemma LineBack(lines: seq<string>, i: nat)
    requires i < |lines|
    ensures LineAt(WithReturns(lines), i) == Success(lines[i])
  {
    var line := lines[i] + "\r";
    assert line[..|line| - 1] == lines[i];
  }

  // ---- One field -----------------------------------------------------------

  ghost predicate AllBlank(s: string) {
    forall i | 0 <= i < |s| :: Blank(s[i])
  }

  /** `s` is `value` between blanks. */
  ghost predicate Padded(s: string, before: string, value: string, after: string) {
    AllBlank(before) && AllBlank(after) && s == before + value + after
  }

  lemma {:induction false} DropsFront(before: string, s: string)
    requires AllBlank(before)
    ensures DropBlanks(before + s) == DropBlanks(s)
  {
    if before == "" {
      assert before + s == s;
    } else {
      DropsFront(before[1..], s);
      assert (before + s)[1..] == before[1..] + s;
    }
  }

  lemma {:induction false} DropsBack(s: string, after: string)
    requires AllBlank(after)
    ensures DropTrailing(s + after) == DropTrailing(s)
    decreases |after|
  {
    if after == "" {
      assert s + after == s;
    } else {
      DropsBack(s, after[..|after| - 1]);
      assert (s + after)[..|s + after| - 1] == s + after[..|after| - 1];
    }
  }

  lemma {:induction false} FrontBlanks(s: string) returns (before: string)
    ensures AllBlank(before) && s == before + DropBlanks(s)
  {
    before := "";
    if s != "" && Blank(s[0]) {
      var rest := FrontBlanks(s[1..]);
      before := [s[0]] + rest;
    }
  }

  lemma {:induction false} BackBlanks(s: string) returns (after: string)
    ensures AllBlank(after) && s == DropTrailing(s) + after
    decreases |s|
  {
    after := "";
    if s != "" && Blank(s[|s| - 1]) {
      var rest := BackBlanks(s[..|s| - 1]);
      after := rest + [s[|s| - 1]];
    }
  }

  lemma TrimSplits(s: string) returns (before: string, after: string)
    ensures Padded(s, before, Trim(s), after)
  {
    before := FrontBlanks(s);
    after := BackBlanks(DropBlanks(s));
    hide DropBlanks, DropTrailing;
    assert s == before + (Trim(s) + after);
  }

  lemma PaddedTrims(s: string, before: string, value: string, after: string)
    requires Padded(s, before, value, after) && Trimmed(value)
    ensures Trim(s) == value
  {
    assert s == before + (value + after);
    DropsFront(before, value + after);
    if value == "" {
      assert value + after == after + "";
      DropsFront(after, "");
    } else {
      assert (value + after)[0] == value[0];
      DropsBack(value, after);
    }
  }

  /** Trimming removes exactly the blanks at both ends. */
  lemma TrimExactly(s: string, value: string)
    ensures Trim(s) == value <==> Trimmed(value) && exists before, after :: Padded(s, before, value, after)
  {
    hide Trim, Padded, Trimmed;
    TrimTrims(s);
    var front, back := TrimSplits(s);
    forall before, after | Trimmed(value) && Padded(s, before, value, after) ensures Trim(s) == value {
      PaddedTrims(s, before, value, after);
    }
  }

  lemma TrimKeeps(value: string)
    requires Trimmed(value)
    ensures Trim(" " + value) == value
  {
    assert " " + value + "" == " " + value;
    PaddedTrims(" " + value, " ", value, "");
  }

  lemma {:induction false} DropBlanksFront(s: string)
    ensures var r := DropBlanks(s); |r| <= |s| && (r == "" || !Blank(r[0]))
  {
    if s != "" && Blank(s[0]) {
      DropBlanksFront(s[1..]);
    }
  }

  lemma {:induction false} DropTrailingTrims(s: string)
    requires s == "" || !Blank(s[0])
    ensures Trimmed(DropTrailing(s))
  {
    if s != "" && Blank(s[|s| - 1]) {
      DropTrailingTrims(s[..|s| - 1]);
    }
  }

  lemma TrimTrims(s: string)
    ensures Trimmed(Trim(s))
  {
    DropBlanksFront(s);
    DropTrailingTrims(DropBlanks(s));
  }

  lemma {:induction false} FirstPosition(s: string, c: char, n: nat)
    requires n < |s| && s[n] == c && c !in s[..n]
    ensures Position(s, c) == Some(n)
  {
    if n > 0 {
      assert s[..n][0] == s[0];
      assert s[1..][..n - 1] == s[..n][1..];
      FirstPosition(s[1..], c, n - 1);
    }
  }

  lemma TokenCharPlain(c: char)
    requires TokenChar(c)
    ensures c !in ":\r\n" && !AsciiWhitespace(c) && c as int < 0x80
  {
  }

  lemma TokenPlain(s: string)
    requires Token(s)
    ensures ':' !in s && ' ' !in s && '\r' !in s && '\n' !in s
    ensures !AsciiWhitespace(s[0]) && !AsciiWhitespace(s[|s| - 1])
    ensures forall i | 0 <= i < |s| :: s[i] as int < 0x80
  {
    hide TokenChar;
    forall i | 0 <= i < |s|
      ensures s[i] !in ":\r\n" && !AsciiWhitespace(s[i]) && s[i] as int < 0x80
    {
      TokenCharPlain(s[i]);
    }
  }

  /** A line that says a field: its name in any case, a colon, its value between
      blanks. */
  predicate WritesAt(line: string, n: nat, field: Header) {
    && n < |line| && line[n] == ':' && Token(line[..n]) && Lower(line[..n]) == field.name
    && Trim(line[n + 1..]) == field.value
  }

  ghost predicate Writes(line: string, field: Header) {
    exists n: nat :: WritesAt(line, n, field)
  }

  lemma LowerLength(s: string)
    ensures |Lower(s)| == |s|
  {
  }

  lemma FieldBack(line: string, field: Header, count: nat, max: nat)
    requires FieldOk(field) && count < max && Writes(line, field)
    ensures ParseField(line, count, max) == Success(field)
  {
    hide Position, Trim, Token, HeaderValue, Trimmed, ParseContentLength, Lower, TokenChar, AsciiWhitespace;
    var n: nat :| WritesAt(line, n, field);
    var name := line[..n];
    TokenPlain(name);
    TokenNonEmpty(name);
    LowerLength(name);
    assert line[0] == name[0] && line[n - 1] == name[n - 1];
    FirstPosition(line, ':', n);
  }

  /** A printed field is such a line. */
  lemma LineWrites(field: Header)
    requires FieldOk(field)
    ensures Writes(Line(field), field)
  {
    var line, n := Line(field), |field.name|;
    assert line[..n] == field.name && line[n] == ':' && line[n + 1..] == " " + field.value;
    TrimKeeps(field.value);
    hide Trim, Token, Lower;
    assert WritesAt(line, n, field);
  }

  lemma TokenNonEmpty(s: string)
    requires Token(s)
    ensures s != ""
  {
  }

  lemma LowerToken(s: string)
    requires Token(s)
    ensures Token(Lower(s)) && Lower(Lower(s)) == Lower(s)
  {
    forall i | 0 <= i < |s| ensures TokenChar(Lower(s)[i]) && LowerChar(Lower(s)[i]) == Lower(s)[i] {
      assert TokenChar(s[i]);
    }
  }

  /** A parsed field, apart from what the header loop itself refuses. */
  lemma ParsedField(line: string, count: nat, max: nat)
    requires ParseField(line, count, max).Success?
    ensures var f := ParseField(line, count, max).value;
            && count < max && Token(f.name) && |f.name| <= MAX_NAME_OCTETS && Lower(f.name) == f.name
            && HeaderValue(f.value) && Trimmed(f.value)
  {
    var colon := Position(line, ':').value;
    LowerToken(line[..colon]);
    TrimTrims(line[colon + 1..]);
  }

  // ---- The header loop -----------------------------------------------------

  /** What the loop carries after these fields. */
  function After(headers: seq<Header>): (head: Head) {
    Head(headers, Count(headers, "host"),
         if Count(headers, "content-length") == 0 then None else Some(DeclaredLength(headers)))
  }

  lemma CountAppend(headers: seq<Header>, field: Header, name: string)
    ensures Count(headers + [field], name) == Count(headers, name) + (if field.name == name then 1 else 0)
  {
    assert (headers + [field])[..|headers|] == headers;
  }

  lemma LengthAppend(headers: seq<Header>, field: Header)
    ensures DeclaredLength(headers + [field]) ==
            if field.name == "content-length" && ParseContentLength(field.value).Success?
            then ParseContentLength(field.value).value else DeclaredLength(headers)
  {
    assert (headers + [field])[..|headers|] == headers;
  }

  lemma FieldsAppend(headers: seq<Header>, field: Header, max: nat)
    ensures FieldsOk(headers + [field], max) <==>
            FieldsOk(headers, max) && |headers| < max && FieldOk(field) &&
            !(field.name == "content-length" && Count(headers, "content-length") > 0)
  {
    CountAppend(headers, field, "content-length");
    var all := headers + [field];
    assert all[|headers|] == field;
    if FieldsOk(all, max) {
      forall i | 0 <= i < |headers| ensures FieldOk(headers[i]) {
        assert all[i] == headers[i];
      }
    }
  }

  /** The loop takes a field exactly when the fields stay in order, and then
      carries what it should. */
  lemma AdmitExactly(headers: seq<Header>, field: Header, max: nat)
    requires FieldsOk(headers, max) && |headers| < max
    requires Token(field.name) && |field.name| <= MAX_NAME_OCTETS && Lower(field.name) == field.name
    requires HeaderValue(field.value) && Trimmed(field.value)
    ensures Admit(After(headers), field).Success? <==> FieldsOk(headers + [field], max)
    ensures Admit(After(headers), field).Success? ==>
              Admit(After(headers), field) == Success(After(headers + [field]))
  {
    FieldsAppend(headers, field, max);
    CountAppend(headers, field, "host");
    CountAppend(headers, field, "content-length");
    LengthAppend(headers, field);
    hide Count, DeclaredLength, FieldsOk, Token, HeaderValue, Trimmed, ParseContentLength;
  }

  lemma AfterHeaders(headers: seq<Header>)
    ensures After(headers).headers == headers
  {
  }

  /** Whatever the loop returns is in order. */
  lemma {:induction false} LoopKeepsOrder(headers: seq<Header>, raw: seq<string>, i: nat, max: nat)
    requires FieldsOk(headers, max) && i <= |raw|
    requires AddLines(After(headers), raw, i, max).Success?
    ensures var head := AddLines(After(headers), raw, i, max).value;
            FieldsOk(head.headers, max) && head == After(head.headers)
    decreases |raw| - i
  {
    hide After, FieldsOk, ParseField, Admit, LineAt;
    if i < |raw| {
      var line := LineAt(raw, i).value;
      AfterHeaders(headers);
      var field := ParseField(line, |headers|, max).value;
      ParsedField(line, |headers|, max);
      AdmitExactly(headers, field, max);
      LoopKeepsOrder(headers + [field], raw, i + 1, max);
    } else {
      AfterHeaders(headers);
    }
  }

  lemma {:induction false} FieldsPrefix(headers: seq<Header>, i: nat, max: nat)
    requires FieldsOk(headers, max) && i <= |headers|
    ensures FieldsOk(headers[..i], max)
    decreases |headers| - i
  {
    hide FieldsOk;
    if i == |headers| {
      assert headers[..i] == headers;
    } else {
      FieldsPrefix(headers, i + 1, max);
      assert headers[..i + 1] == headers[..i] + [headers[i]];
      FieldsAppend(headers[..i], headers[i], max);
    }
  }

  /** The loop takes back the fields it is shown. */
  lemma {:induction false} LoopTakesBack(headers: seq<Header>, lines: seq<string>, i: nat, max: nat)
    requires FieldsOk(headers, max) && i <= |headers| && |lines| == |headers| + 1
    requires forall j | 0 <= j < |headers| :: Writes(lines[j + 1], headers[j])
    ensures AddLines(After(headers[..i]), WithReturns(lines), i + 1, max) == Success(After(headers))
    decreases |headers| - i
  {
    hide After, FieldsOk, ParseField, Admit, LineAt, FieldOk, Writes, WithReturns;
    if i == |headers| {
      assert headers[..i] == headers;
    } else {
      var field := headers[i];
      FieldsPrefix(headers, i, max);
      FieldsPrefix(headers, i + 1, max);
      AfterHeaders(headers[..i]);
      assert headers[..i + 1] == headers[..i] + [field];
      FieldsAppend(headers[..i], field, max);
      LineBack(lines, i + 1);
      assert Writes(lines[i + 1], field);
      FieldBack(lines[i + 1], field, i, max);
      FieldShape(field);
      AdmitExactly(headers[..i], field, max);
      LoopTakesBack(headers, lines, i + 1, max);
    }
  }

  lemma FieldShape(field: Header)
    requires FieldOk(field)
    ensures Token(field.name) && |field.name| <= MAX_NAME_OCTETS && Lower(field.name) == field.name
    ensures HeaderValue(field.value) && Trimmed(field.value)
  {
  }

  // ---- The request line ----------------------------------------------------

  lemma RequestLineParts(verb: string, target: string)
    requires ' ' !in verb && ' ' !in target
    ensures Split(verb + [' '] + (target + [' '] + VERSION), ' ') == [verb, target, VERSION]
  {
    assert ' ' !in VERSION;
    SplitThree(verb, target, VERSION, ' ');
  }

  lemma AsciiIsUtf8(s: string)
    requires forall i | 0 <= i < |s| :: s[i] as int < 0x80
    ensures Utf8.Valid(Codes(s))
  {
    Utf8.ValidAscii(Codes(s));
  }

  lemma Utf8AroundSpace(a: string, b: string)
    ensures Utf8.Valid(Codes(a + [' '] + b)) <==> Utf8.Valid(Codes(a)) && Utf8.Valid(Codes(b))
  {
    hide Utf8.Valid;
    var ca, cb := Codes(a), Codes(b);
    assert Codes(a + [' '] + b) == ca + [32] + cb;
    if Utf8.Valid(ca + [32] + cb) {
      Utf8.ValidAround(ca, 32, cb);
    }
    if Utf8.Valid(ca) && Utf8.Valid(cb) {
      Utf8.ValidAscii([32]);
      Utf8.ValidConcat([32], cb);
      Utf8.ValidConcat(ca, [32] + cb);
      assert ca + ([32] + cb) == ca + [32] + cb;
    }
  }

  lemma RequestLineUtf8(verb: string, target: string)
    requires Token(verb) && Utf8.Valid(Codes(target))
    ensures Utf8.Valid(Codes(verb + [' '] + (target + [' '] + VERSION)))
  {
    TokenPlain(verb);
    hide Token, Utf8.Valid;
    AsciiIsUtf8(verb);
    AsciiIsUtf8(VERSION);
    hide Codes;
    Utf8AroundSpace(target, VERSION);
    Utf8AroundSpace(verb, target + [' '] + VERSION);
  }

  lemma RequestLineBack(r: Request, l: Limits)
    requires WellFormed(r, l)
    ensures ParseRequestLine(RequestLine(r), l) == Success((r.verb, r.target))
  {
    TokenPlain(r.verb);
    RequestLineUtf8(r.verb, r.target);
    RequestLineParts(r.verb, r.target);
    hide Split, Utf8.Valid, ValidateTarget, FieldsOk, Count, DeclaredLength, Token, Codes;
  }

  lemma RequestLineParsed(line: string, l: Limits)
    requires ParseRequestLine(line, l).Success?
    ensures var (verb, target) := ParseRequestLine(line, l).value;
            && line == verb + [' '] + (target + [' '] + VERSION)
            && Token(verb) && verb != "CONNECT"
            && ' ' !in target && Utf8.Valid(Codes(target)) && ValidateTarget(target, l.uri).None?
            && |line| <= l.maxRequestLineBytes
  {
    hide Utf8.Valid, ValidateTarget, Token, TokenChar, Codes;
    var parts := Split(line, ' ');
    var verb, target := parts[0], parts[1];
    assert |parts| == 3 && parts[2] == VERSION;
    JoinSplit(line, ' ');
    JoinThree(parts, ' ');
    if ' ' in target {
      PartWithin(line, ' ', 1, ' ');
    }
    hide Split, Join;
    Utf8AroundSpace(verb, target + [' '] + VERSION);
    Utf8AroundSpace(target, VERSION);
  }

  lemma JoinThree(parts: seq<string>, d: char)
    requires |parts| == 3
    ensures Join(parts, d) == parts[0] + [d] + (parts[1] + [d] + parts[2])
  {
    var rest := parts[1..];
    assert Join(rest, d) == parts[1] + [d] + Join(rest[1..], d);
    assert rest[1..] == [parts[2]];
  }

  // ---- The whole request ---------------------------------------------------

  lemma {:induction false} NothingDeclared(headers: seq<Header>)
    requires Count(headers, "content-length") == 0
    ensures DeclaredLength(headers) == 0
  {
    if headers != [] {
      NothingDeclared(headers[..|headers| - 1]);
    }
  }

  lemma AfterLength(headers: seq<Header>)
    ensures After(headers).length.UnwrapOr(0) == DeclaredLength(headers)
    ensures After(headers).hosts == Count(headers, "host") && After(headers).headers == headers
  {
    if Count(headers, "content-length") == 0 {
      NothingDeclared(headers);
    }
  }

  predicate Unbroken(s: string) {
    '\r' !in s && '\n' !in s
  }

  lemma UnbrokenConcat(a: string, b: string)
    requires Unbroken(a) && Unbroken(b)
    ensures Unbroken(a + b)
  {
  }

  lemma UnbrokenBlank(s: string)
    requires AllBlank(s)
    ensures Unbroken(s)
  {
  }

  lemma UnbrokenValue(s: string)
    requires HeaderValue(s)
    ensures Unbroken(s)
  {
  }

  lemma CleanUnbroken(line: string)
    requires Unbroken(line) && line != ""
    ensures CleanLine(line)
  {
  }

  /** Blanks around an unbroken value break nothing. */
  lemma UnbrokenPadded(s: string)
    requires HeaderValue(Trim(s))
    ensures Unbroken(s)
  {
    hide Trim, Trimmed, HeaderValue, AllBlank;
    var before, after := TrimSplits(s);
    UnbrokenBlank(before);
    UnbrokenBlank(after);
    UnbrokenValue(Trim(s));
    hide Unbroken;
    UnbrokenConcat(before, Trim(s));
    UnbrokenConcat(before + Trim(s), after);
  }

  lemma CleanField(line: string, field: Header)
    requires FieldOk(field) && Writes(line, field)
    ensures CleanLine(line)
  {
    var n: nat :| WritesAt(line, n, field);
    TokenPlain(line[..n]);
    hide Token, Trim, ParseContentLength, Lower, HeaderValue;
    UnbrokenPadded(line[n + 1..]);
    assert Unbroken(line[..n] + ":");
    hide Unbroken;
    UnbrokenConcat(line[..n] + ":", line[n + 1..]);
    assert line == line[..n] + ":" + line[n + 1..];
    CleanUnbroken(line);
  }

  lemma CleanRequestLine(r: Request, l: Limits)
    requires Token(r.verb) && ValidateTarget(r.target, l.uri).None?
    ensures CleanLine(RequestLine(r))
  {
    TokenPlain(r.verb);
    hide Token;
    assert forall i | 0 <= i < |r.target| :: r.target[i] as int >= 32;
    assert '\r' !in r.target && '\n' !in r.target;
    hide ValidateTarget;
    assert '\r' !in VERSION && '\n' !in VERSION;
  }

  /** The lines of a text that stands for a request. */
  ghost predicate LinesOf(lines: seq<string>, r: Request) {
    && |lines| == |r.headers| + 1 && lines[0] == RequestLine(r)
    && forall j | 0 <= j < |r.headers| :: Writes(lines[j + 1], r.headers[j])
  }

  lemma LinesClean(lines: seq<string>, r: Request, l: Limits)
    requires WellFormed(r, l) && LinesOf(lines, r)
    ensures CleanLines(lines)
  {
    hide CleanLine, RequestLine, Writes, FieldOk, Token, ValidateTarget, Count, DeclaredLength, Utf8.Valid;
    forall i | 0 <= i < |lines| ensures CleanLine(lines[i]) {
      if i == 0 {
        CleanRequestLine(r, l);
      } else {
        assert Writes(lines[i - 1 + 1], r.headers[i - 1]);
        CleanField(lines[i], r.headers[i - 1]);
      }
    }
  }

  lemma PrintedLines(r: Request, l: Limits)
    requires WellFormed(r, l)
    ensures LinesOf(HeadLines(r), r)
  {
    hide RequestLine, Writes, Line, FieldOk, Token, ValidateTarget, Count, DeclaredLength, Utf8.Valid;
    var lines := HeadLines(r);
    forall j | 0 <= j < |r.headers| ensures Writes(lines[j + 1], r.headers[j]) {
      LineWrites(r.headers[j]);
    }
  }

  lemma NoneBare(lines: seq<string>)
    requires lines != [] && CleanLines(lines)
    ensures !BareLineFeed(JoinCrlf(lines))
  {
    var text := JoinCrlf(lines);
    forall i | 0 <= i < |text| ensures text[i] == '\n' ==> i > 0 && text[i - 1] == '\r' {
      NoBareLineFeed(lines, i);
    }
  }

  lemma AfterNone(headers: seq<Header>)
    ensures After(headers[..0]) == NO_HEADERS
  {
  }

  lemma HeadBack(lines: seq<string>, r: Request, l: Limits)
    requires WellFormed(r, l) && LinesOf(lines, r)
    ensures ParseHead(JoinCrlf(lines), l) == Success((r.(body := ""), DeclaredLength(r.headers)))
  {
    hide BareLineFeed, Split, JoinCrlf, AddLines, ParseRequestLine, After, LineAt, WithReturns, FieldsOk, Count,
      DeclaredLength, RequestLine, Writes, CleanLines, Token, ValidateTarget, Utf8.Valid;
    LinesClean(lines, r, l);
    NoneBare(lines);
    SplitCrlf(lines);
    LineBack(lines, 0);
    RequestLineBack(r, l);
    LoopBack(lines, r, l);
    AfterLength(r.headers);
    hide LinesOf;
  }

  lemma LoopBack(lines: seq<string>, r: Request, l: Limits)
    requires WellFormed(r, l) && LinesOf(lines, r)
    ensures AddLines(NO_HEADERS, WithReturns(lines), 1, l.maxHeaderCount) == Success(After(r.headers))
  {
    hide AddLines, After, WithReturns, FieldsOk, Count, DeclaredLength, RequestLine, Writes, Token, ValidateTarget,
      Utf8.Valid;
    AfterNone(r.headers);
    LoopTakesBack(r.headers, lines, 0, l.maxHeaderCount);
  }

  /** A text stands for a request: lines that say it, an empty line, and its body. */
  ghost predicate Stands(text: string, lines: seq<string>, r: Request) {
    LinesOf(lines, r) && text == JoinCrlf(lines) + HEADER_END + r.body
  }

  /** Whatever stands for a well-formed request is parsed to it. */
  lemma StandsParse(text: string, lines: seq<string>, r: Request, l: Limits)
    requires WellFormed(r, l) && Stands(text, lines, r)
    ensures Parse(text, l) == Success(r)
  {
    var head := JoinCrlf(lines);
    LinesClean(lines, r, l);
    HeadEnds(lines, r.body);
    HeadBack(lines, r, l);
    assert text[..|head|] == head && text[|head| + 4..] == r.body;
    assert |r.body| == DeclaredLength(r.headers) <= l.maxBodyBytes;
    hide FindHeaderEnd, ParseHead, JoinCrlf, WellFormed, DeclaredLength, LinesOf;
  }

  /** Parsing what was printed gives the request back. */
  lemma PrintParse(r: Request, l: Limits)
    requires WellFormed(r, l)
    ensures Parse(Print(r), l) == Success(r)
  {
    hide WellFormed, LinesOf, JoinCrlf, HeadLines, Parse;
    PrintedLines(r, l);
    StandsParse(Print(r), HeadLines(r), r, l);
  }

  /** Whatever the parser accepts is well formed. */
  lemma ParsedIsWellFormed(text: string, l: Limits)
    requires Parse(text, l).Success?
    ensures WellFormed(Parse(text, l).value, l)
  {
    var r := Parse(text, l).value;
    var end := FindHeaderEnd(text).value;
    var raw := Split(text[..end], '\n');
    var line := LineAt(raw, 0).value;
    RequestLineParsed(line, l);
    assert After([]) == NO_HEADERS;
    LoopKeepsOrder([], raw, 1, l.maxHeaderCount);
    AfterLength(r.headers);
    hide Split, AddLines, ParseRequestLine, After, LineAt, FindHeaderEnd, BareLineFeed, FieldsOk, Count, DeclaredLength,
      Token, ValidateTarget, Utf8.Valid;
  }

  /** The parser's results are exactly the well-formed requests, and printing one
      gives a text that stands for it. */
  lemma WellFormedExactly(r: Request, l: Limits)
    ensures WellFormed(r, l) <==> Parse(Print(r), l) == Success(r)
    ensures (exists text :: Parse(text, l) == Success(r)) <==> WellFormed(r, l)
  {
    if WellFormed(r, l) {
      PrintParse(r, l);
    }
    forall text | Parse(text, l) == Success(r) ensures WellFormed(r, l) {
      ParsedIsWellFormed(text, l);
    }
  }

  // ---- Line ends -----------------------------------------------------------

  lemma {:induction false} JoinEndsWith(parts: seq<string>, d: char)
    requires parts != []
    ensures var s, last := Join(parts, d), parts[|parts| - 1];
            if last != "" then s != "" && s[|s| - 1] == last[|last| - 1]
            else if |parts| > 1 then s != "" && s[|s| - 1] == d
            else s == ""
  {
    if |parts| > 1 {
      JoinEndsWith(parts[1..], d);
      assert parts[1..][|parts| - 2] == parts[|parts| - 1];
      var s := Join(parts, d);
      assert s == parts[0] + [d] + Join(parts[1..], d);
    }
  }

  /** Once bare line feeds are refused, stripping the carriage return off a line
      cannot fail: the second CRLF check is never the one that refuses. */
  lemma LinesAlwaysEndInCrlf(text: string, i: nat)
    requires !BareLineFeed(text) && i < |Split(text, '\n')|
    ensures LineAt(Split(text, '\n'), i).Success?
  {
    var raw := Split(text, '\n');
    if i < |raw| - 1 {
      var before, after := raw[..i + 1], raw[i + 1..];
      var head := Join(before, '\n');
      JoinSplit(text, '\n');
      assert raw == before + after;
      JoinConcat(before, after, '\n');
      assert text == head + ['\n'] + Join(after, '\n');
      assert text[|head|] == '\n';
      JoinEndsWith(before, '\n');
      assert before[|before| - 1] == raw[i];
      hide Split, Join;
      assert head != "" && text[|head| - 1] == '\r';
      assert head[|head| - 1] == text[|head| - 1];
    }
  }
}
