/** The strict HTTP/1.1 request parser of the credential broker. One character
    stands for one octet. */
module Http1 {
  import opened Prelude
  import opened Splitting
  import Utf8

  const HEADER_END := "\r\n\r\n"
  const VERSION := "HTTP/1.1"
  const MAX_NAME_OCTETS := 0xFFFF

  datatype Error =
    | HeadersTooLong | HeadersIncomplete | NoHeaderEnd | BodyTooLarge | LengthOverflow | TrailingBytes | BodyIncomplete
    | LengthMismatch | LinesMustUseCrlf | RequestLineTooLong | NotUtf8 | MethodMissing | TargetMissing
    | VersionMissing | NotCanonical | MethodInvalid | ConnectUnsupported | UnsafeTarget | InvalidUri
    | EmptyLine | FoldedHeader | TooManyHeaders | MissingColon | NameMalformed | NameInvalid | ValueInvalid
    | DuplicateLength | LengthNotDecimal | LengthTooLarge | TransferEncoding | HostCount

  datatype Header = Header(name: string, value: string)

  datatype Request = Request(verb: string, target: string, headers: seq<Header>, body: string)

  /** `uri` is the verdict of the URI library on an origin-form target. */
  datatype Limits = Limits(
    maxHeaderBytes: nat,
    maxRequestLineBytes: nat,
    maxHeaderCount: nat,
    maxBodyBytes: nat,
    uri: string -> bool)

  // ---- Lexical classes -----------------------------------------------------

  /** `tchar` of section 5.6.2 of RFC 9110. */
  predicate TokenChar(c: char) {
    'a' <= c <= 'z' || 'A' <= c <= 'Z' || '0' <= c <= '9' || c in "!#$%&'*+-.^_`|~"
  }

  predicate Token(s: string) {
    s != "" && forall i | 0 <= i < |s| :: TokenChar(s[i])
  }

  /** `HeaderName::from_bytes`. */
  function HeaderName(s: string): (r: Option<string>) {
    if Token(s) && |s| <= MAX_NAME_OCTETS then Some(Lower(s)) else None
  }

  predicate ValueChar(c: char) {
    c == '\t' || (c as int >= 32 && c as int != 127)
  }

  /** `HeaderValue::from_bytes` accepts it. */
  predicate HeaderValue(s: string) {
    forall i | 0 <= i < |s| :: ValueChar(s[i])
  }

  /** `u8::is_ascii_whitespace`. */
  predicate AsciiWhitespace(c: char) {
    c == ' ' || c == '\t' || c == '\n' || c == '\r' || c as int == 12
  }

  predicate Blank(c: char) {
    c == ' ' || c == '\t'
  }

  function DropBlanks(s: string): (r: string) {
    if s != "" && Blank(s[0]) then DropBlanks(s[1..]) else s
  }

  function DropTrailing(s: string): (r: string) {
    if s != "" && Blank(s[|s| - 1]) then DropTrailing(s[..|s| - 1]) else s
  }

  function Trim(s: string): (r: string) {
    DropTrailing(DropBlanks(s))
  }

  predicate Trimmed(s: string) {
    s == "" || (!Blank(s[0]) && !Blank(s[|s| - 1]))
  }

  method TrimOptionalWhitespace(text: string) returns (r: string)
    ensures r == Trim(text)
  {
    r := text;
    while r != "" && Blank(r[0])
      invariant DropBlanks(r) == DropBlanks(text)
      decreases |r|
    {
      r := r[1..];
    }
    while r != "" && Blank(r[|r| - 1])
      invariant DropTrailing(r) == Trim(text)
      decreases |r|
    {
      r := r[..|r| - 1];
    }
  }

  function Position(s: string, c: char): (r: Option<nat>)
    ensures r.None? ==> c !in s
    ensures r.Some? ==> r.value < |s| && s[r.value] == c && c !in s[..r.value]
  {
    if s == "" then None
    else if s[0] == c then Some(0)
    else
      match Position(s[1..], c)
      case None => None
      case Some(i) =>
        assert s[..i + 1] == [s[0]] + s[1..][..i];
        Some(i + 1)
  }

  predicate Digit(c: char) {
    '0' <= c <= '9'
  }

  predicate Digits(s: string) {
    forall i | 0 <= i < |s| :: Digit(s[i])
  }

  function DecimalValue(s: string): (n: nat)
    requires Digits(s)
  {
    if s == "" then 0 else 10 * DecimalValue(s[..|s| - 1]) + (s[|s| - 1] as int - '0' as int)
  }

  function ParseContentLength(s: string): (r: Result<nat, Error>) {
    if s == "" || !Digits(s) then Failure(LengthNotDecimal)
    else if DecimalValue(s) > U64_MAX then Failure(LengthTooLarge)
    else Success(DecimalValue(s))
  }

  // ---- Where the header section ends ---------------------------------------

  predicate EndAt(s: string, i: nat) {
    i + 4 <= |s| && s[i..i + 4] == HEADER_END
  }

  function FindEndFrom(s: string, i: nat): (r: Option<nat>)
    ensures r.None? ==> forall j: nat | i <= j :: !EndAt(s, j)
    ensures r.Some? ==> i <= r.value && EndAt(s, r.value) && forall j | i <= j < r.value :: !EndAt(s, j)
    decreases |s| - i
  {
    if i + 4 > |s| then None else if s[i..i + 4] == HEADER_END then Some(i) else FindEndFrom(s, i + 1)
  }

  function FindHeaderEnd(s: string): (r: Option<nat>)
    ensures r.None? ==> forall j: nat :: !EndAt(s, j)
    ensures r.Some? ==> EndAt(s, r.value) && forall j | 0 <= j < r.value :: !EndAt(s, j)
  {
    FindEndFrom(s, 0)
  }

  // ---- The request line ----------------------------------------------------

  /** `char::is_control` on the characters the octets encode. */
  predicate HasControl(s: string) {
    || (exists i | 0 <= i < |s| :: s[i] as int < 32 || s[i] as int == 127)
    || (exists i | 0 < i < |s| :: s[i - 1] as int == 0xC2 && 0x80 <= s[i] as int <= 0x9F)
  }

  function ValidateTarget(target: string, uri: string -> bool): (r: Option<Error>) {
    if target == "" || target[0] != '/' || "//" <= target || '\\' in target || '#' in target || HasControl(target)
    then Some(UnsafeTarget)
    else if !uri(target) then Some(InvalidUri)
    else None
  }

  function ParseRequestLine(line: string, l: Limits): (r: Result<(string, string), Error>) {
    if |line| > l.maxRequestLineBytes then Failure(RequestLineTooLong)
    else if !Utf8.Valid(Codes(line)) then Failure(NotUtf8)
    else
      var parts := Split(line, ' ');
      if parts[0] == "" then Failure(MethodMissing)
      else if |parts| < 2 || parts[1] == "" then Failure(TargetMissing)
      else if |parts| < 3 then Failure(VersionMissing)
      else if |parts| > 3 || parts[2] != VERSION then Failure(NotCanonical)
      else if !Token(parts[0]) then Failure(MethodInvalid)
      else if parts[0] == "CONNECT" then Failure(ConnectUnsupported)
      else match ValidateTarget(parts[1], l.uri)
        case Some(e) => Failure(e)
        case None => Success((parts[0], parts[1]))
  }

  // ---- Header lines --------------------------------------------------------

  /** What the header loop carries: the fields so far, the Host count and the
      Content-Length. */
  datatype Head = Head(headers: seq<Header>, hosts: nat, length: Option<nat>)

  const NO_HEADERS := Head([], 0, None)

  function ParseField(line: string, count: nat, max: nat): (r: Result<Header, Error>) {
    if line == "" then Failure(EmptyLine)
    else if AsciiWhitespace(line[0]) then Failure(FoldedHeader)
    else if count >= max then Failure(TooManyHeaders)
    else match Position(line, ':')
      case None => Failure(MissingColon)
      case Some(colon) =>
        if colon == 0 || AsciiWhitespace(line[colon - 1]) then Failure(NameMalformed)
        else match HeaderName(line[..colon])
          case None => Failure(NameInvalid)
          case Some(name) =>
            var value := Trim(line[colon + 1..]);
            if HeaderValue(value) then Success(Header(name, value)) else Failure(ValueInvalid)
  }

  /** A field joins the list. */
  function Admit(head: Head, field: Header): (r: Result<Head, Error>) {
    var headers := head.headers + [field];
    if field.name == "host" then Success(head.(headers := headers, hosts := head.hosts + 1))
    else if field.name == "content-length" then
      if head.length.Some? then Failure(DuplicateLength)
      else
        var n :- ParseContentLength(field.value);
        Success(head.(headers := headers, length := Some(n)))
    else if field.name == "transfer-encoding" then Failure(TransferEncoding)
    else Success(head.(headers := headers))
  }

  function AddLine(head: Head, line: string, max: nat): (r: Result<Head, Error>) {
    var field :- ParseField(line, |head.headers|, max);
    Admit(head, field)
  }

  /** All lines but the last give up their carriage return. */
  function LineAt(raw: seq<string>, i: nat): (r: Result<string, Error>)
    requires i < |raw|
  {
    var line := raw[i];
    if i == |raw| - 1 then Success(line)
    else if line != "" && line[|line| - 1] == '\r' then Success(line[..|line| - 1])
    else Failure(LinesMustUseCrlf)
  }

  /** The header loop from line `i` on. */
  function AddLines(head: Head, raw: seq<string>, i: nat, max: nat): (r: Result<Head, Error>)
    requires i <= |raw|
    decreases |raw| - i
  {
    if i == |raw| then Success(head)
    else
      var line :- LineAt(raw, i);
      var next :- AddLine(head, line, max);
      AddLines(next, raw, i + 1, max)
  }

  predicate BareLineFeed(s: string) {
    exists i | 0 <= i < |s| :: s[i] == '\n' && (i == 0 || s[i - 1] != '\r')
  }

  function ParseHead(text: string, l: Limits): (r: Result<(Request, nat), Error>) {
    if BareLineFeed(text) then Failure(LinesMustUseCrlf)
    else
      var raw := Split(text, '\n');
      var line :- LineAt(raw, 0);
      var first :- ParseRequestLine(line, l);
      var head :- AddLines(NO_HEADERS, raw, 1, l.maxHeaderCount);
      if head.hosts != 1 then Failure(HostCount)
      else Success((Request(first.0, first.1, head.headers, ""), head.length.UnwrapOr(0)))
  }

  /** `parse_complete_request_with_limits`. */
  function Parse(text: string, l: Limits): (r: Result<Request, Error>) {
    match FindHeaderEnd(text)
    case None => Failure(NoHeaderEnd)
    case Some(end) =>
      var head :- ParseHead(text[..end], l);
      var body := text[end + 4..];
      if head.1 > l.maxBodyBytes || |body| != head.1 then Failure(LengthMismatch)
      else Success(head.0.(body := body))
  }

  /** The header loop as written. */
  method ParseHeaderLines(raw: seq<string>, max: nat) returns (r: Result<Head, Error>)
    requires raw != []
    ensures r == AddLines(NO_HEADERS, raw, 1, max)
  {
    var headers, hosts, length := [], 0, None;
    var i := 1;
    while i < |raw|
      invariant 1 <= i <= |raw|
      invariant AddLines(Head(headers, hosts, length), raw, i, max) == AddLines(NO_HEADERS, raw, 1, max)
    {
      var line := LineAt(raw, i);
      if line.Failure? {
        return Failure(line.error);
      }
      var field := ParseField(line.value, |headers|, max);
      if field.Failure? {
        return Failure(field.error);
      }
      var name, value := field.value.name, field.value.value;
      if name == "host" {
        hosts := hosts + 1;
      } else if name == "content-length" {
        if length.Some? {
          return Failure(DuplicateLength);
        }
        var n := ParseContentLength(value);
        if n.Failure? {
          return Failure(n.error);
        }
        length := Some(n.value);
      } else if name == "transfer-encoding" {
        return Failure(TransferEncoding);
      }
      headers := headers + [field.value];
      i := i + 1;
    }
    return Success(Head(headers, hosts, length));
  }
}
