/** The incremental request reader, and how far its outcome depends on where the
    transport splits the stream. */
module Http1Reader {
  import opened Prelude
  import opened Http1

  const READ_CHUNK_BYTES: nat := 1024

  /** How a transport cuts a stream: the octets it would deliver in one read that
      starts at a position. Positions only grow, so every way of cutting is one of
      these functions. */
  type Cut = nat -> nat

  function Min(a: nat, b: nat): (r: nat) {
    if a < b then a else b
  }

  /** One read: at least one octet, unless the stream is over or none was asked. */
  function Delivered(stream: string, cut: Cut, at: nat, limit: nat): (n: nat)
    requires at <= |stream|
    ensures n <= limit && at + n <= |stream|
    ensures n == 0 <==> at == |stream| || limit == 0
  {
    Min(Min(if cut(at) == 0 then 1 else cut(at), limit), |stream| - at)
  }

  class Transport {
    const stream: string
    const cut: Cut
    var at: nat

    ghost predicate Valid()
      reads this
    {
      at <= |stream|
    }

    constructor (stream: string, cut: Cut)
      ensures this.stream == stream && this.cut == cut && at == 0 && Valid()
    {
      this.stream, this.cut, this.at := stream, cut, 0;
    }

    method Read(limit: nat) returns (chunk: string)
      requires Valid()
      modifies this
      ensures Valid() && at == old(at) + Delivered(stream, cut, old(at), limit) && chunk == stream[old(at)..at]
    {
      var n := Delivered(stream, cut, at, limit);
      chunk := stream[at..at + n];
      at := at + n;
    }
  }

  // ---- The reader as a function of the stream and its cuts -----------------

  /** The header loop: how many octets are held when the header end is seen. */
  function HeaderBytes(stream: string, cut: Cut, max: nat, at: nat): (r: Result<nat, Error>)
    requires at <= |stream|
    decreases |stream| - at
  {
    if FindHeaderEnd(stream[..at]).Some? then Success(at)
    else if at >= max then Failure(HeadersTooLong)
    else
      var n := Delivered(stream, cut, at, Min(READ_CHUNK_BYTES, max - at));
      if n == 0 then Failure(HeadersIncomplete) else HeaderBytes(stream, cut, max, at + n)
  }

  /** The body loop: how many octets are held when it ends. */
  function BodyBytes(stream: string, cut: Cut, total: nat, at: nat): (r: nat)
    requires at <= |stream| && at <= total
    decreases |stream| - at
  {
    if at == total then at
    else
      var n := Delivered(stream, cut, at, Min(READ_CHUNK_BYTES, total - at));
      if n == 0 then at else BodyBytes(stream, cut, total, at + n)
  }

  /** `read_request_inner`. */
  function Read(stream: string, cut: Cut, l: Limits): (r: Result<Request, Error>) {
    var held :- HeaderBytes(stream, cut, l.maxHeaderBytes, 0);
    HeaderBytesBounds(stream, cut, l.maxHeaderBytes, 0);
    var end := FindHeaderEnd(stream[..held]).value;
    var head :- ParseHead(stream[..end], l);
    if head.1 > l.maxBodyBytes then Failure(BodyTooLarge)
    else
      var total := end + 4 + head.1;
      if total > U64_MAX then Failure(LengthOverflow)
      else if held > total then Failure(TrailingBytes)
      else
        var whole := BodyBytes(stream, cut, total, held);
        if whole < total then Failure(BodyIncomplete)
        else
          BodyBytesBounds(stream, cut, total, held);
          Parse(stream[..whole], l)
  }

  lemma {:induction false} HeaderBytesBounds(stream: string, cut: Cut, max: nat, at: nat)
    requires at <= |stream| && at <= max
    ensures var r := HeaderBytes(stream, cut, max, at);
            r.Success? ==> r.value <= |stream| && r.value <= max && FindHeaderEnd(stream[..r.value]).Some?
    decreases |stream| - at
  {
    hide FindHeaderEnd;
    if FindHeaderEnd(stream[..at]).None? && at < max {
      var n := Delivered(stream, cut, at, Min(READ_CHUNK_BYTES, max - at));
      if n > 0 {
        HeaderBytesBounds(stream, cut, max, at + n);
      }
    }
  }

  /** The body loop stops at the end of the body or of the stream, however the
      stream is cut. */
  lemma {:induction false} BodyBytesBounds(stream: string, cut: Cut, total: nat, at: nat)
    requires at <= |stream| && at <= total
    ensures BodyBytes(stream, cut, total, at) == Min(total, |stream|)
    decreases |stream| - at
  {
    if at < total {
      var n := Delivered(stream, cut, at, Min(READ_CHUNK_BYTES, total - at));
      if n > 0 {
        BodyBytesBounds(stream, cut, total, at + n);
      }
    }
  }

  /** The header loop as written: the octets held when the header end is seen. */
  method ReadHeaders(reader: Transport, max: nat) returns (r: Result<string, Error>)
    requires reader.Valid() && reader.at == 0
    modifies reader
    ensures reader.Valid()
    ensures var held := HeaderBytes(reader.stream, reader.cut, max, 0);
            match r
            case Failure(e) => held == Failure(e)
            case Success(bytes) => held == Success(reader.at) && bytes == reader.stream[..reader.at]
  {
    hide FindHeaderEnd;
    var bytes := "";
    while FindHeaderEnd(bytes).None?
      invariant reader.Valid() && bytes == reader.stream[..reader.at] && |bytes| <= max
      invariant HeaderBytes(reader.stream, reader.cut, max, reader.at) == HeaderBytes(reader.stream, reader.cut, max, 0)
      decreases |reader.stream| - |bytes|
    {
      if |bytes| >= max {
        return Failure(HeadersTooLong);
      }
      var chunk := reader.Read(Min(READ_CHUNK_BYTES, max - |bytes|));
      if chunk == "" {
        return Failure(HeadersIncomplete);
      }
      bytes := bytes + chunk;
    }
    return Success(bytes);
  }

  /** The body loop as written: `None` when the stream ends too early. */
  method ReadBody(reader: Transport, held: string, total: nat) returns (r: Option<string>)
    requires reader.Valid() && held == reader.stream[..reader.at] && |held| <= total
    modifies reader
    ensures var whole := BodyBytes(reader.stream, reader.cut, total, |held|);
            match r
            case None => whole < total
            case Some(bytes) => whole == total <= |reader.stream| && bytes == reader.stream[..total]
  {
    var bytes := held;
    while |bytes| < total
      invariant reader.Valid() && bytes == reader.stream[..reader.at] && |bytes| <= total
      invariant BodyBytes(reader.stream, reader.cut, total, reader.at) ==
                BodyBytes(reader.stream, reader.cut, total, |held|)
      decreases total - |bytes|
    {
      var chunk := reader.Read(Min(READ_CHUNK_BYTES, total - |bytes|));
      if chunk == "" {
        return None;
      }
      bytes := bytes + chunk;
    }
    return Some(bytes);
  }

  /** `read_request_inner` as written, against `Read`. */
  method ReadRequest(reader: Transport, l: Limits) returns (r: Result<Request, Error>)
    requires reader.Valid() && reader.at == 0
    modifies reader
    ensures r == Read(reader.stream, reader.cut, l)
  {
    hide FindHeaderEnd, ParseHead, Parse, BodyBytes, HeaderBytes;
    HeaderBytesBounds(reader.stream, reader.cut, l.maxHeaderBytes, 0);
    var bytes :- ReadHeaders(reader, l.maxHeaderBytes);
    var end := FindHeaderEnd(bytes).value;
    assert bytes[..end] == reader.stream[..end];
    var head :- ParseHead(bytes[..end], l);
    if head.1 > l.maxBodyBytes {
      return Failure(BodyTooLarge);
    }
    var total := end + 4 + head.1;
    if total > U64_MAX {
      return Failure(LengthOverflow);
    }
    if |bytes| > total {
      return Failure(TrailingBytes);
    }
    BodyBytesBounds(reader.stream, reader.cut, total, |bytes|);
    var whole := ReadBody(reader, bytes, total);
    if whole.None? {
      return Failure(BodyIncomplete);
    }
    r := Parse(whole.value, l);
  }

  // ---- What the outcome depends on -----------------------------------------

  /** Where the header section of a stream ends and how long its body is to be,
      or why the request is refused without its body. */
  function Plan(stream: string, l: Limits): (r: Result<(nat, nat), Error>)
    ensures r.Success? ==> EndAt(stream, r.value.0)
  {
    var end := FindHeaderEnd(stream);
    if end.None? || end.value + 4 > l.maxHeaderBytes then
      Failure(if |stream| >= l.maxHeaderBytes then HeadersTooLong else HeadersIncomplete)
    else
      var head :- ParseHead(stream[..end.value], l);
      if head.1 > l.maxBodyBytes then Failure(BodyTooLarge)
      else if end.value + 4 + head.1 > U64_MAX then Failure(LengthOverflow)
      else Success((end.value, head.1))
  }

  function Needed(plan: (nat, nat)): (n: nat) {
    plan.0 + 4 + plan.1
  }

  /** The outcome as a function of the stream alone: parse the prefix that the
      header section announces. */
  function Expected(stream: string, l: Limits): (r: Result<Request, Error>) {
    var plan :- Plan(stream, l);
    if |stream| < Needed(plan) then Failure(BodyIncomplete) else Parse(stream[..Needed(plan)], l)
  }

  /** More octets follow the request, and one read that begins inside the header
      section can reach them. */
  predicate CanOvershoot(stream: string, l: Limits) {
    var plan := Plan(stream, l);
    && plan.Success?
    && Needed(plan.value) < |stream|
    && Needed(plan.value) < l.maxHeaderBytes
    && plan.value.1 + 1 < READ_CHUNK_BYTES
  }

  lemma EndInPrefix(stream: string, k: nat, i: nat)
    requires k <= |stream|
    ensures EndAt(stream[..k], i) <==> EndAt(stream, i) && i + 4 <= k
  {
    if i + 4 <= k {
      assert stream[..k][i..i + 4] == stream[i..i + 4];
    }
  }

  lemma FindInPrefix(stream: string, k: nat)
    requires k <= |stream|
    ensures var f := FindHeaderEnd(stream);
            FindHeaderEnd(stream[..k]) == if f.Some? && f.value + 4 <= k then f else None
  {
    var f, g := FindHeaderEnd(stream), FindHeaderEnd(stream[..k]);
    if g.Some? {
      EndInPrefix(stream, k, g.value);
    }
    if f.Some? {
      EndInPrefix(stream, k, f.value);
    }
  }

  /** Without a header end in reach the header loop fails, one way or the other. */
  lemma {:induction false} HeaderNeverEnds(stream: string, cut: Cut, max: nat, at: nat)
    requires at <= |stream| && at <= max
    requires var f := FindHeaderEnd(stream); f.None? || f.value + 4 > max
    ensures HeaderBytes(stream, cut, max, at) ==
            Failure(if |stream| >= max then HeadersTooLong else HeadersIncomplete)
    decreases |stream| - at
  {
    FindInPrefix(stream, at);
    hide FindHeaderEnd;
    if at < max {
      var n := Delivered(stream, cut, at, Min(READ_CHUNK_BYTES, max - at));
      if n > 0 {
        HeaderNeverEnds(stream, cut, max, at + n);
      }
    }
  }

  /** With one in reach the loop stops after it, less than a chunk too far. */
  lemma {:induction false} HeaderEnds(stream: string, cut: Cut, max: nat, at: nat, end: nat)
    requires FindHeaderEnd(stream) == Some(end) && end + 4 <= max && end + 4 <= |stream|
    requires at < end + 4
    ensures var r := HeaderBytes(stream, cut, max, at);
            r.Success? && end + 4 <= r.value <= Min(|stream|, max) && r.value < end + 4 + READ_CHUNK_BYTES
    decreases |stream| - at
  {
    FindInPrefix(stream, at);
    var n := Delivered(stream, cut, at, Min(READ_CHUNK_BYTES, max - at));
    FindInPrefix(stream, at + n);
    hide FindHeaderEnd;
    if at + n < end + 4 {
      HeaderEnds(stream, cut, max, at + n, end);
    }
  }

  /** What the incremental stage lets through, the final parse accepts. */
  lemma FinalParseAccepts(stream: string, l: Limits)
    requires var plan := Plan(stream, l); plan.Success? && Needed(plan.value) <= |stream|
    ensures var plan := Plan(stream, l).value;
            && Parse(stream[..Needed(plan)], l).Success?
            && Parse(stream[..Needed(plan)], l).value.body == stream[plan.0 + 4..Needed(plan)]
  {
    var plan := Plan(stream, l).value;
    var prefix := stream[..Needed(plan)];
    FindInPrefix(stream, Needed(plan));
    assert prefix[..plan.0] == stream[..plan.0];
    assert prefix[plan.0 + 4..] == stream[plan.0 + 4..Needed(plan)];
    hide FindHeaderEnd, ParseHead;
  }

  /** What the reader does when the header loop stopped at `held`. */
  lemma ReadFromHeld(stream: string, cut: Cut, l: Limits, held: nat)
    requires HeaderBytes(stream, cut, l.maxHeaderBytes, 0) == Success(held)
    requires var f := FindHeaderEnd(stream); f.Some? && f.value + 4 <= held <= Min(|stream|, l.maxHeaderBytes)
    ensures var plan := Plan(stream, l);
            Read(stream, cut, l) ==
            if plan.Success? && held > Needed(plan.value) then Failure(TrailingBytes) else Expected(stream, l)
  {
    hide FindHeaderEnd, ParseHead, Parse, HeaderBytes, BodyBytes;
    FindInPrefix(stream, held);
    var end := FindHeaderEnd(stream).value;
    var head := ParseHead(stream[..end], l);
    if head.Success? && head.value.1 <= l.maxBodyBytes && held <= end + 4 + head.value.1 {
      BodyBytesBounds(stream, cut, end + 4 + head.value.1, held);
    }
  }

  /** For one stream every cut gives the outcome that the stream alone fixes,
      except that octets after the request may be noticed. */
  lemma ReadOutcome(stream: string, cut: Cut, l: Limits)
    ensures || Read(stream, cut, l) == Expected(stream, l)
            || (Read(stream, cut, l) == Failure(TrailingBytes) && CanOvershoot(stream, l))
  {
    var f := FindHeaderEnd(stream);
    if f.None? || f.value + 4 > l.maxHeaderBytes {
      HeaderNeverEnds(stream, cut, l.maxHeaderBytes, 0);
    } else {
      HeaderEnds(stream, cut, l.maxHeaderBytes, 0, f.value);
      ReadFromHeld(stream, cut, l, HeaderBytes(stream, cut, l.maxHeaderBytes, 0).value);
    }
    hide FindHeaderEnd, ParseHead, Parse, HeaderBytes, BodyBytes;
  }

  /** Every accepted request is the parse of the announced prefix. */
  lemma AcceptedIsPrefix(stream: string, cut: Cut, l: Limits)
    requires Read(stream, cut, l).Success?
    ensures var plan := Plan(stream, l);
            && plan.Success? && Needed(plan.value) <= |stream|
            && Read(stream, cut, l) == Parse(stream[..Needed(plan.value)], l)
            && Read(stream, cut, l).value.body == stream[plan.value.0 + 4..Needed(plan.value)]
  {
    ReadOutcome(stream, cut, l);
    FinalParseAccepts(stream, l);
  }

  // ---- Exactly when the cut matters ----------------------------------------

  /** Octet by octet. */
  function Single(at: nat): (n: nat) {
    1
  }

  /** Octet by octet up to the last octet of the header end, then a full read. */
  function Gulp(end: nat): (cut: Cut) {
    at => if at < end + 3 then 1 else READ_CHUNK_BYTES
  }

  lemma {:induction false} SingleHeader(stream: string, max: nat, at: nat, end: nat)
    requires FindHeaderEnd(stream) == Some(end) && end + 4 <= max && end + 4 <= |stream| && at <= end + 4
    ensures HeaderBytes(stream, Single, max, at) == Success(end + 4)
    decreases end + 4 - at
  {
    FindInPrefix(stream, at);
    hide FindHeaderEnd;
    if at < end + 4 {
      SingleHeader(stream, max, at + 1, end);
    }
  }

  lemma {:induction false} GulpHeader(stream: string, max: nat, at: nat, end: nat)
    requires FindHeaderEnd(stream) == Some(end) && end + 4 <= max && end + 4 <= |stream| && at <= end + 3
    ensures HeaderBytes(stream, Gulp(end), max, at) ==
            Success(Min(end + 3 + READ_CHUNK_BYTES, Min(max, |stream|)))
    decreases end + 3 - at
  {
    FindInPrefix(stream, at);
    if at < end + 3 {
      GulpHeader(stream, max, at + 1, end);
    } else {
      FindInPrefix(stream, Min(end + 3 + READ_CHUNK_BYTES, Min(max, |stream|)));
    }
    hide FindHeaderEnd;
  }

  ghost predicate SameForEveryCut(stream: string, l: Limits) {
    forall a: Cut, b: Cut :: Read(stream, a, l) == Read(stream, b, l)
  }

  /** Octet by octet nothing beyond the request is read; in one gulp something is. */
  lemma OvershootShows(stream: string, l: Limits)
    requires CanOvershoot(stream, l)
    ensures Read(stream, Single, l) != Read(stream, Gulp(Plan(stream, l).value.0), l)
  {
    var end := Plan(stream, l).value.0;
    var single, gulp: Cut := Single, Gulp(end);
    SingleHeader(stream, l.maxHeaderBytes, 0, end);
    ReadFromHeld(stream, single, l, end + 4);
    GulpHeader(stream, l.maxHeaderBytes, 0, end);
    ReadFromHeld(stream, gulp, l, HeaderBytes(stream, gulp, l.maxHeaderBytes, 0).value);
    FinalParseAccepts(stream, l);
  }

  /** The outcome is the same for every cut exactly when no octet follows the
      request within reach of a read that begins in the header section. */
  lemma CutMattersExactly(stream: string, l: Limits)
    ensures SameForEveryCut(stream, l) <==> !CanOvershoot(stream, l)
  {
    hide CanOvershoot, Read;
    if CanOvershoot(stream, l) {
      OvershootShows(stream, l);
    } else {
      forall a: Cut, b: Cut ensures Read(stream, a, l) == Read(stream, b, l) {
        ReadOutcome(stream, a, l);
        ReadOutcome(stream, b, l);
      }
    }
  }
}
