/** Reading a possibly compressed domain name from a DNS message, section 4.1.4 of
    RFC 1035, as the cold-start probe does. */
module DnsName {
  import opened Prelude
  import opened Splitting

  const MAX_VISITS: nat := 128

  type Bytes = seq<Byte>

  datatype Error = InvalidName | IncompletePointer | InvalidLabel | NotAscii

  /** What stands at an offset. */
  datatype Item = End | Pointer(to: nat) | Label(content: Bytes) | Broken(error: Error)

  predicate Ascii(s: Bytes) {
    forall i | 0 <= i < |s| :: s[i] < 0x80
  }

  function PointerTarget(high: nat, low: nat): (n: nat)
    requires 0xC0 <= high
  {
    (high - 0xC0) * 256 + low
  }

  function ItemAt(data: Bytes, offset: nat): (r: Item)
    requires offset < |data|
  {
    var length := data[offset];
    if length >= 0xC0 then
      if offset + 1 >= |data| then Broken(IncompletePointer) else Pointer(PointerTarget(length, data[offset + 1]))
    else if length == 0 then End
    else if length > 63 || offset + 1 + length > |data| then Broken(InvalidLabel)
    else
      var content := data[offset + 1..offset + 1 + length];
      if Ascii(content) then Label(content) else Broken(NotAscii)
  }

  /** Labels, the offset after the name, and the steps taken. */
  datatype Name = Name(labels: seq<Bytes>, end: nat, steps: nat)

  /** The decoding loop: `end` is set by the first pointer. */
  function Walk(data: Bytes, offset: nat, visited: set<nat>, labels: seq<Bytes>, end: Option<nat>)
    : (r: Result<Name, Error>)
    decreases MAX_VISITS - |visited|
  {
    if offset in visited || |visited| >= MAX_VISITS || offset >= |data| then Failure(InvalidName)
    else
      match ItemAt(data, offset)
      case Broken(e) => Failure(e)
      case Pointer(to) => Walk(data, to, visited + {offset}, labels, Some(end.UnwrapOr(offset + 2)))
      case End => Success(Name(labels, end.UnwrapOr(offset + 1), |visited| + 1))
      case Label(content) => Walk(data, offset + 1 + |content|, visited + {offset}, labels + [content], end)
  }

  /** How many items the loop reads, whether or not it finds a name. */
  function Steps(data: Bytes, offset: nat, visited: set<nat>): (n: nat)
    ensures |visited| <= MAX_VISITS ==> |visited| + n <= MAX_VISITS
    decreases MAX_VISITS - |visited|
  {
    if offset in visited || |visited| >= MAX_VISITS || offset >= |data| then 0
    else
      match ItemAt(data, offset)
      case Broken(_) => 1
      case Pointer(to) => 1 + Steps(data, to, visited + {offset})
      case End => 1
      case Label(content) => 1 + Steps(data, offset + 1 + |content|, visited + {offset})
  }

  function LowerByte(b: Byte): (r: Byte) {
    if 65 <= b <= 90 then b + 32 else b
  }

  function Lower(s: Bytes): (r: Bytes)
    ensures |r| == |s|
  {
    seq(|s|, i requires 0 <= i < |s| => LowerByte(s[i]))
  }

  /** The labels joined with dots, in lower case. */
  function NameText(labels: seq<Bytes>): (r: Bytes) {
    if labels == [] then [] else Lower(Join(labels, 46))
  }

  /** One round of a walk that finds a name. */
  lemma WalkGoesOn(data: Bytes, offset: nat, visited: set<nat>, labels: seq<Bytes>, end: Option<nat>)
    requires Walk(data, offset, visited, labels, end).Success?
    ensures offset < |data| && |visited + {offset}| == |visited| + 1 <= MAX_VISITS
    ensures var seen, r := visited + {offset}, Walk(data, offset, visited, labels, end);
            match ItemAt(data, offset)
            case End => r.value.steps == |seen|
            case Pointer(to) => r == Walk(data, to, seen, labels, Some(end.UnwrapOr(offset + 2)))
            case Label(content) => r == Walk(data, offset + 1 + |content|, seen, labels + [content], end)
            case Broken(_) => false
  {
    hide ItemAt;
  }

  /** A name takes as many rounds as it says. */
  lemma {:induction false} NameSteps(data: Bytes, offset: nat, visited: set<nat>, labels: seq<Bytes>, end: Option<nat>)
    requires Walk(data, offset, visited, labels, end).Success?
    ensures Walk(data, offset, visited, labels, end).value.steps == |visited| + Steps(data, offset, visited)
    decreases MAX_VISITS - |visited|
  {
    hide ItemAt, Walk;
    WalkGoesOn(data, offset, visited, labels, end);
    match ItemAt(data, offset) {
      case End =>
      case Pointer(to) =>
        NameSteps(data, to, visited + {offset}, labels, Some(end.UnwrapOr(offset + 2)));
      case Label(content) =>
        NameSteps(data, offset + 1 + |content|, visited + {offset}, labels + [content], end);
    }
  }

  /** `dns_name` as written: on every byte string it stops within 128 rounds. */
  method ReadName(data: Bytes, start: nat) returns (r: Result<(Bytes, nat), Error>, ghost rounds: nat)
    ensures rounds == Steps(data, start, {}) <= MAX_VISITS
    ensures match Walk(data, start, {}, [], None)
            case Failure(e) => r == Failure(e)
            case Success(n) => r == Success((NameText(n.labels), n.end)) && rounds == n.steps
  {
    hide ItemAt, NameText;
    if Walk(data, start, {}, [], None).Success? {
      NameSteps(data, start, {}, [], None);
    }
    rounds := 0;
    var labels: seq<Bytes>, visited: set<nat>, end: Option<nat>, offset: nat := [], {}, None, start;
    while true
      invariant Walk(data, offset, visited, labels, end) == Walk(data, start, {}, [], None)
      invariant rounds + Steps(data, offset, visited) == Steps(data, start, {})
      decreases MAX_VISITS - |visited|
    {
      if offset in visited || |visited| >= MAX_VISITS || offset >= |data| {
        return Failure(InvalidName), rounds;
      }
      rounds := rounds + 1;
      var here := ItemAt(data, offset);
      var seen := visited + {offset};
      assert |seen| == |visited| + 1;
      match here {
        case Broken(e) => return Failure(e), rounds;
        case Pointer(to) =>
          if end.None? {
            end := Some(offset + 2);
          }
          offset := to;
        case End => return Success((NameText(labels), end.UnwrapOr(offset + 1))), rounds;
        case Label(content) =>
          labels := labels + [content];
          offset := offset + 1 + |content|;
      }
      visited := seen;
    }
  }

  // ---- What a name is, without the bookkeeping -----------------------------

  /** A name of `d` items before its end starts here. */
  ghost predicate Reaches(data: Bytes, offset: nat, d: nat)
    decreases d
  {
    && offset < |data|
    && match ItemAt(data, offset)
       case End => d == 0
       case Pointer(to) => d > 0 && Reaches(data, to, d - 1)
       case Label(content) => d > 0 && Reaches(data, offset + 1 + |content|, d - 1)
       case Broken(_) => false
  }

  ghost function LabelsFrom(data: Bytes, offset: nat, d: nat): (r: seq<Bytes>)
    requires Reaches(data, offset, d)
    decreases d
  {
    match ItemAt(data, offset)
    case End => []
    case Pointer(to) => LabelsFrom(data, to, d - 1)
    case Label(content) => [content] + LabelsFrom(data, offset + 1 + |content|, d - 1)
  }

  ghost function EndFrom(data: Bytes, offset: nat, d: nat): (r: nat)
    requires Reaches(data, offset, d)
    decreases d
  {
    match ItemAt(data, offset)
    case End => offset + 1
    case Pointer(_) => offset + 2
    case Label(content) => EndFrom(data, offset + 1 + |content|, d - 1)
  }

  /** The number of items is a matter of the message alone. */
  lemma {:induction false} ReachesUnique(data: Bytes, offset: nat, d: nat, e: nat)
    requires Reaches(data, offset, d) && Reaches(data, offset, e)
    ensures d == e
    decreases d
  {
    hide ItemAt;
    match ItemAt(data, offset) {
      case End =>
      case Pointer(to) => ReachesUnique(data, to, d - 1, e - 1);
      case Label(content) => ReachesUnique(data, offset + 1 + |content|, d - 1, e - 1);
    }
  }

  /** Whatever was visited lies further from the end. */
  ghost predicate Behind(data: Bytes, visited: set<nat>, d: nat) {
    forall v | v in visited :: Further(data, v, d)
  }

  ghost predicate Further(data: Bytes, v: nat, d: nat) {
    exists e: nat :: e > d && Reaches(data, v, e)
  }

  lemma BehindStep(data: Bytes, visited: set<nat>, offset: nat, d: nat)
    requires Behind(data, visited, d) && Reaches(data, offset, d) && d > 0
    ensures offset !in visited && Behind(data, visited + {offset}, d - 1)
  {
    hide Reaches;
    NotBehind(data, visited, offset, d);
    forall v | v in visited + {offset} ensures Further(data, v, d - 1) {
      if v in visited {
        assert Further(data, v, d);
      }
    }
  }

  lemma NotBehind(data: Bytes, visited: set<nat>, offset: nat, d: nat)
    requires Behind(data, visited, d) && Reaches(data, offset, d)
    ensures offset !in visited
  {
    if offset in visited {
      assert Further(data, offset, d);
      var e: nat :| e > d && Reaches(data, offset, e);
      ReachesUnique(data, offset, d, e);
    }
  }

  /** A name within the visit budget is decoded: no offset comes round twice. */
  lemma {:induction false} WalkFinds(data: Bytes, offset: nat, d: nat, visited: set<nat>, labels: seq<Bytes>,
      end: Option<nat>)
    requires Reaches(data, offset, d) && Behind(data, visited, d) && |visited| + d < MAX_VISITS
    ensures Walk(data, offset, visited, labels, end) ==
            Success(Name(labels + LabelsFrom(data, offset, d), end.UnwrapOr(EndFrom(data, offset, d)),
                |visited| + d + 1))
    decreases d
  {
    hide ItemAt, Behind;
    NotBehind(data, visited, offset, d);
    match ItemAt(data, offset) {
      case End =>
        assert labels + [] == labels;
      case Pointer(to) =>
        BehindStep(data, visited, offset, d);
        WalkFinds(data, to, d - 1, visited + {offset}, labels, Some(end.UnwrapOr(offset + 2)));
      case Label(content) =>
        BehindStep(data, visited, offset, d);
        WalkFinds(data, offset + 1 + |content|, d - 1, visited + {offset}, labels + [content], end);
        var rest := LabelsFrom(data, offset + 1 + |content|, d - 1);
        assert labels + ([content] + rest) == labels + [content] + rest;
    }
  }

  /** Whatever is decoded is a name within the visit budget. */
  lemma {:induction false} WalkIsName(data: Bytes, offset: nat, visited: set<nat>, labels: seq<Bytes>, end: Option<nat>)
    requires Walk(data, offset, visited, labels, end).Success?
    ensures var steps := Walk(data, offset, visited, labels, end).value.steps;
            |visited| < steps <= MAX_VISITS && Reaches(data, offset, steps - |visited| - 1)
    decreases MAX_VISITS - |visited|
  {
    hide ItemAt, Walk;
    WalkGoesOn(data, offset, visited, labels, end);
    var seen := visited + {offset};
    match ItemAt(data, offset) {
      case End =>
      case Pointer(to) =>
        WalkIsName(data, to, seen, labels, Some(end.UnwrapOr(offset + 2)));
      case Label(content) =>
        WalkIsName(data, offset + 1 + |content|, seen, labels + [content], end);
    }
  }

  /** Decoding succeeds exactly on names of at most 127 items before the end, and
      then gives their labels and the offset after the name, in as many steps. */
  lemma DecodesExactly(data: Bytes, offset: nat)
    ensures Walk(data, offset, {}, [], None).Success? <==> exists d: nat :: d < MAX_VISITS && Reaches(data, offset, d)
    ensures forall d: nat | d < MAX_VISITS && Reaches(data, offset, d) ::
              Walk(data, offset, {}, [], None) ==
              Success(Name(LabelsFrom(data, offset, d), EndFrom(data, offset, d), d + 1))
  {
    hide Walk, Reaches, LabelsFrom, EndFrom;
    forall d: nat | d < MAX_VISITS && Reaches(data, offset, d)
      ensures Walk(data, offset, {}, [], None) ==
              Success(Name(LabelsFrom(data, offset, d), EndFrom(data, offset, d), d + 1))
    {
      WalkFinds(data, offset, d, {}, [], None);
      assert [] + LabelsFrom(data, offset, d) == LabelsFrom(data, offset, d);
    }
    if Walk(data, offset, {}, [], None).Success? {
      WalkIsName(data, offset, {}, [], None);
    }
  }

  // ---- Encoded names -------------------------------------------------------

  predicate LabelOk(content: Bytes) {
    1 <= |content| <= 63 && Ascii(content)
  }

  predicate LabelsOk(labels: seq<Bytes>) {
    forall i | 0 <= i < |labels| :: LabelOk(labels[i])
  }

  /** The labels alone, each behind its length. */
  function Front(labels: seq<Bytes>): (r: Bytes)
    requires LabelsOk(labels)
  {
    if labels == [] then []
    else
      assert LabelOk(labels[0]);
      [|labels[0]|] + labels[0] + Front(labels[1..])
  }

  /** The uncompressed form. */
  function Encode(labels: seq<Bytes>): (r: Bytes)
    requires LabelsOk(labels)
  {
    Front(labels) + [0]
  }

  function Width(labels: seq<Bytes>): (n: nat) {
    if labels == [] then 0 else 1 + |labels[0]| + Width(labels[1..])
  }

  /** These labels stand at this offset, one after the other. */
  predicate StandAt(data: Bytes, offset: nat, labels: seq<Bytes>)
    decreases |labels|
  {
    labels == [] || (LabelAt(data, offset, labels[0]) && StandAt(data, offset + 1 + |labels[0]|, labels[1..]))
  }

  predicate LabelAt(data: Bytes, offset: nat, content: Bytes) {
    && offset + 1 + |content| <= |data| && data[offset] == |content|
    && data[offset + 1..offset + 1 + |content|] == content
  }

  lemma LabelInFront(data: Bytes, offset: nat, content: Bytes, d: nat)
    requires LabelOk(content) && LabelAt(data, offset, content) && Reaches(data, offset + 1 + |content|, d)
    ensures Reaches(data, offset, d + 1)
    ensures var next := offset + 1 + |content|;
            && LabelsFrom(data, offset, d + 1) == [content] + LabelsFrom(data, next, d)
            && EndFrom(data, offset, d + 1) == EndFrom(data, next, d)
  {
    assert ItemAt(data, offset) == Label(content);
    hide ItemAt;
  }

  /** Labels in front of a name make a longer name. */
  lemma {:induction false} LabelsInFront(data: Bytes, offset: nat, labels: seq<Bytes>, d: nat)
    requires LabelsOk(labels) && StandAt(data, offset, labels) && Reaches(data, offset + Width(labels), d)
    ensures Reaches(data, offset, |labels| + d)
    ensures LabelsFrom(data, offset, |labels| + d) == labels + LabelsFrom(data, offset + Width(labels), d)
    ensures EndFrom(data, offset, |labels| + d) == EndFrom(data, offset + Width(labels), d)
    decreases |labels|
  {
    hide Reaches, LabelsFrom, EndFrom, LabelOk, LabelAt;
    if labels == [] {
      assert [] + LabelsFrom(data, offset, d) == LabelsFrom(data, offset, d);
    } else {
      var next := offset + 1 + |labels[0]|;
      assert next + Width(labels[1..]) == offset + Width(labels);
      LabelsInFront(data, next, labels[1..], d);
      LabelInFront(data, offset, labels[0], |labels| - 1 + d);
      var tail := LabelsFrom(data, offset + Width(labels), d);
      assert [labels[0]] + (labels[1..] + tail) == labels + tail;
    }
  }

  lemma {:induction false} FrontWidth(labels: seq<Bytes>)
    requires LabelsOk(labels)
    ensures |Front(labels)| == Width(labels)
  {
    if labels != [] {
      FrontWidth(labels[1..]);
    }
  }

  lemma {:induction false} FrontConcat(a: seq<Bytes>, b: seq<Bytes>)
    requires LabelsOk(a) && LabelsOk(b) && LabelsOk(a + b)
    ensures Front(a + b) == Front(a) + Front(b)
  {
    if a == [] {
      assert a + b == b;
    } else {
      assert (a + b)[1..] == a[1..] + b && (a + b)[0] == a[0];
      FrontConcat(a[1..], b);
    }
  }

  lemma FirstFits(data: Bytes, offset: nat, first: Bytes, rest: Bytes)
    requires offset <= |data| && first + rest <= data[offset..]
    ensures offset + |first| <= |data| && data[offset..offset + |first|] == first && rest <= data[offset + |first|..]
  {
    var tail, both := data[offset..], first + rest;
    assert forall i | 0 <= i < |both| :: tail[i] == both[i];
    assert data[offset + |first|..] == tail[|first|..];
    assert rest == both[|first|..];
  }

  lemma LabelFits(data: Bytes, offset: nat, content: Bytes)
    requires LabelOk(content) && offset + 1 + |content| <= |data|
    requires data[offset..offset + 1 + |content|] == [|content|] + content
    ensures LabelAt(data, offset, content)
  {
    var here := data[offset..offset + 1 + |content|];
    assert here[0] == |content| && here[1..] == content;
  }

  lemma {:induction false} FrontStands(data: Bytes, offset: nat, labels: seq<Bytes>)
    requires LabelsOk(labels) && offset <= |data| && Front(labels) <= data[offset..]
    ensures StandAt(data, offset, labels)
    decreases |labels|
  {
    if labels != [] {
      assert LabelOk(labels[0]);
      var first := [|labels[0]|] + labels[0];
      FirstFits(data, offset, first, Front(labels[1..]));
      hide Front, LabelOk, LabelAt;
      LabelFits(data, offset, labels[0]);
      FrontStands(data, offset + |first|, labels[1..]);
    }
  }

  lemma EncodedStands(data: Bytes, offset: nat, labels: seq<Bytes>)
    requires LabelsOk(labels) && offset <= |data| && Encode(labels) <= data[offset..]
    ensures StandAt(data, offset, labels) && offset + Width(labels) < |data| && data[offset + Width(labels)] == 0
  {
    hide Front, StandAt;
    FrontWidth(labels);
    FirstFits(data, offset, Front(labels), [0]);
    assert Front(labels) <= data[offset..];
    FrontStands(data, offset, labels);
    assert data[offset + Width(labels)..][0] == [0][0];
  }

  lemma PlainName(data: Bytes, offset: nat, labels: seq<Bytes>)
    requires LabelsOk(labels) && offset <= |data| && Encode(labels) <= data[offset..]
    ensures Reaches(data, offset, |labels|)
    ensures LabelsFrom(data, offset, |labels|) == labels
    ensures EndFrom(data, offset, |labels|) == offset + |Encode(labels)|
  {
    EncodedStands(data, offset, labels);
    FrontWidth(labels);
    var tail := offset + Width(labels);
    assert Reaches(data, tail, 0) && LabelsFrom(data, tail, 0) == [] && EndFrom(data, tail, 0) == tail + 1;
    hide Reaches, LabelsFrom, EndFrom, Encode, StandAt;
    LabelsInFront(data, offset, labels, 0);
    assert labels + [] == labels;
  }

  /** Wherever the plain encoding of a list of labels stands in a message, it is
      decoded to those labels and the offset after it, exactly when there are at
      most 127 of them. */
  lemma PlainRoundTrip(data: Bytes, offset: nat, labels: seq<Bytes>)
    requires LabelsOk(labels) && offset <= |data| && Encode(labels) <= data[offset..]
    ensures |labels| < MAX_VISITS ==>
              Walk(data, offset, {}, [], None) == Success(Name(labels, offset + |Encode(labels)|, |labels| + 1))
    ensures |labels| >= MAX_VISITS ==> Walk(data, offset, {}, [], None).Failure?
  {
    hide Walk, Reaches, LabelsFrom, EndFrom, Encode;
    PlainName(data, offset, labels);
    DecodesExactly(data, offset);
    if |labels| >= MAX_VISITS && Walk(data, offset, {}, [], None).Success? {
      var d: nat :| d < MAX_VISITS && Reaches(data, offset, d);
      ReachesUnique(data, offset, d, |labels|);
    }
  }

  /** A pointer to `target` stands at this offset. */
  predicate PointerAt(data: Bytes, offset: nat, target: nat) {
    && target < 0x4000 && offset + 1 < |data|
    && data[offset] == 0xC0 + target / 256 && data[offset + 1] == target % 256
  }

  lemma PointerInFront(data: Bytes, offset: nat, target: nat, d: nat)
    requires PointerAt(data, offset, target) && Reaches(data, target, d)
    ensures Reaches(data, offset, d + 1)
    ensures LabelsFrom(data, offset, d + 1) == LabelsFrom(data, target, d) && EndFrom(data, offset, d + 1) == offset + 2
  {
    assert ItemAt(data, offset) == Pointer(target);
    hide ItemAt;
  }

  /** A name whose last labels are replaced by a pointer to where they already
      stand decodes to the same labels, and the name ends after the pointer,
      exactly when the pointer's own visit still fits the budget. The same labels
      written out need one visit less. */
  lemma CompressionPreserves(data: Bytes, offset: nat, front: seq<Bytes>, target: nat, back: seq<Bytes>, end: nat,
      steps: nat)
    requires LabelsOk(front) && StandAt(data, offset, front) && PointerAt(data, offset + Width(front), target)
    requires Walk(data, target, {}, [], None) == Success(Name(back, end, steps))
    ensures Walk(data, offset, {}, [], None).Success? <==> |front| + steps < MAX_VISITS
    ensures |front| + steps < MAX_VISITS ==>
              Walk(data, offset, {}, [], None) ==
              Success(Name(front + back, offset + Width(front) + 2, |front| + steps + 1))
    ensures LabelsOk(front + back) && |back| < steps
    ensures |front + back| < MAX_VISITS ==>
              Walk(Encode(front + back), 0, {}, [], None) ==
              Success(Name(front + back, |Encode(front + back)|, |front + back| + 1))
  {
    hide Walk, Reaches, LabelsFrom, EndFrom, StandAt, PointerAt, Encode;
    DecodesExactly(data, target);
    var d: nat :| d < MAX_VISITS && Reaches(data, target, d);
    var pointer := offset + Width(front);
    PointerInFront(data, pointer, target, d);
    LabelsInFront(data, offset, front, d + 1);
    DecodesExactly(data, offset);
    BeyondBudget(data, offset, |front| + d + 1);
    DecodedLabelsOk(data, target, d);
    var all := front + back;
    assert LabelsOk(all);
    assert Encode(all)[0..] == Encode(all);
    PlainRoundTrip(Encode(all), 0, all);
  }

  lemma BeyondBudget(data: Bytes, offset: nat, d: nat)
    requires Reaches(data, offset, d)
    ensures Walk(data, offset, {}, [], None).Success? <==> d < MAX_VISITS
  {
    hide Walk, Reaches;
    DecodesExactly(data, offset);
    if Walk(data, offset, {}, [], None).Success? {
      var e: nat :| e < MAX_VISITS && Reaches(data, offset, e);
      ReachesUnique(data, offset, d, e);
    }
  }

  /** Labels a walk can read lie within reach of a pointer. */
  lemma {:induction false} WidthFits(labels: seq<Bytes>)
    requires LabelsOk(labels)
    ensures Width(labels) <= 64 * |labels|
  {
    if labels != [] {
      WidthFits(labels[1..]);
    }
  }

  /** A name written out, and then a second time with its last labels replaced by a
      pointer back into the first. */
  function WithCopy(labels: seq<Bytes>, n: nat): (data: Bytes)
    requires LabelsOk(labels) && n < |labels| < MAX_VISITS
  {
    var target := Width(labels[..n]);
    WidthFits(labels[..n]);
    Encode(labels) + Front(labels[..n]) + [0xC0 + target / 256, target % 256]
  }

  /** So the longest names, of 127 labels, can be read written out but not
      compressed, wherever the pointer is put; shorter ones can be read both ways. */
  lemma LongestNameCannotPoint(labels: seq<Bytes>, n: nat)
    requires LabelsOk(labels) && n < |labels| < MAX_VISITS
    ensures var data, copy := WithCopy(labels, n), |Encode(labels)|;
            && Walk(data, 0, {}, [], None) == Success(Name(labels, copy, |labels| + 1))
            && (Walk(data, copy, {}, [], None).Success? <==> |labels| < MAX_VISITS - 1)
            && (|labels| < MAX_VISITS - 1 ==>
                  Walk(data, copy, {}, [], None) == Success(Name(labels, |data|, |labels| + 2)))
  {
    hide Walk, Encode, Front, WithCopy, StandAt, PointerAt, LabelOk, Width;
    var data, copy := WithCopy(labels, n), |Encode(labels)|;
    var front, back := labels[..n], labels[n..];
    var target := Width(front);
    CopyLayout(labels, n);
    PlainRoundTrip(data, 0, labels);
    PlainRoundTrip(data, target, back);
    CompressionPreserves(data, copy, front, target, back, target + |Encode(back)|, |back| + 1);
    assert labels == front + back;
  }

  lemma CopyLayout(labels: seq<Bytes>, n: nat)
    requires LabelsOk(labels) && n < |labels| < MAX_VISITS
    ensures var data, front, back, copy := WithCopy(labels, n), labels[..n], labels[n..], |Encode(labels)|;
            var target := Width(front);
            && LabelsOk(front) && LabelsOk(back) && target <= |data| && copy + target + 2 == |data|
            && Encode(labels) <= data[0..] && Encode(back) <= data[target..]
            && StandAt(data, copy, front) && PointerAt(data, copy + target, target)
  {
    var data, front, back := WithCopy(labels, n), labels[..n], labels[n..];
    var target := Width(front);
    assert labels == front + back;
    FrontConcat(front, back);
    FrontWidth(front);
    WidthFits(front);
    var pointer := [0xC0 + target / 256, target % 256];
    assert data == Encode(labels) + Front(front) + pointer;
    hide WithCopy;
    assert Encode(labels) == Front(front) + Encode(back);
    hide Front, Encode, Width, StandAt, LabelOk;
    Pieces(Front(front), Encode(back), pointer, data);
    FrontStands(data, |Encode(labels)|, front);
  }

  lemma Pieces(a: Bytes, b: Bytes, pointer: Bytes, data: Bytes)
    requires data == a + b + a + pointer && |pointer| == 2
    ensures var copy := |a + b|;
            && copy + |a| + 2 == |data| && a + b <= data[0..] && b <= data[|a|..] && a <= data[copy..]
            && data[copy + |a|] == pointer[0] && data[copy + |a| + 1] == pointer[1]
  {
    assert data[0..] == (a + b) + (a + pointer);
    assert data[|a|..] == b + (a + pointer);
    assert data[|a + b|..] == a + pointer;
  }

  lemma {:induction false} DecodedLabelsOk(data: Bytes, offset: nat, d: nat)
    requires Reaches(data, offset, d)
    ensures LabelsOk(LabelsFrom(data, offset, d)) && |LabelsFrom(data, offset, d)| <= d
    decreases d
  {
    match ItemAt(data, offset) {
      case End =>
      case Pointer(to) => DecodedLabelsOk(data, to, d - 1);
      case Label(content) => DecodedLabelsOk(data, offset + 1 + |content|, d - 1);
    }
  }

  // ---- The other way: every name is written so -----------------------------

  /** Labels stand at the offset, and then the name ends, or a pointer leads to where
      it goes on. */
  ghost predicate WrittenAs(data: Bytes, offset: nat, d: nat, front: seq<Bytes>, next: Option<nat>)
    requires Reaches(data, offset, d)
  {
    var at := offset + Width(front);
    && LabelsOk(front) && StandAt(data, offset, front)
    && match next
       case None =>
         && at < |data| && data[at] == 0 && d == |front|
         && LabelsFrom(data, offset, d) == front && EndFrom(data, offset, d) == at + 1
       case Some(target) =>
         && PointerAt(data, at, target) && d > |front| && Reaches(data, target, d - |front| - 1)
         && LabelsFrom(data, offset, d) == front + LabelsFrom(data, target, d - |front| - 1)
         && EndFrom(data, offset, d) == at + 2
  }

  lemma PointerWritten(data: Bytes, offset: nat, target: nat)
    requires offset < |data| && ItemAt(data, offset) == Pointer(target)
    ensures PointerAt(data, offset, target)
  {
  }

  lemma LabelWritten(data: Bytes, offset: nat, content: Bytes)
    requires offset < |data| && ItemAt(data, offset) == Label(content)
    ensures LabelOk(content) && LabelAt(data, offset, content)
  {
  }

  lemma EndWritten(data: Bytes, offset: nat)
    requires offset < |data| && ItemAt(data, offset) == End
    ensures data[offset] == 0
  {
  }

  lemma LabelBefore(data: Bytes, offset: nat, d: nat, content: Bytes, front: seq<Bytes>, next: Option<nat>)
    requires Reaches(data, offset, d) && ItemAt(data, offset) == Label(content) && d > 0
    requires WrittenAs(data, offset + 1 + |content|, d - 1, front, next)
    ensures WrittenAs(data, offset, d, [content] + front, next)
  {
    LabelWritten(data, offset, content);
    var all := [content] + front;
    assert all[1..] == front;
    assert Width(all) == 1 + |content| + Width(front);
    hide ItemAt, LabelAt, PointerAt, LabelOk;
    if next.Some? {
      var rest := LabelsFrom(data, next.value, d - 1 - |front| - 1);
      assert [content] + (front + rest) == all + rest;
    }
  }

  lemma {:induction false} NameWritten(data: Bytes, offset: nat, d: nat)
      returns (front: seq<Bytes>, next: Option<nat>)
    requires Reaches(data, offset, d)
    ensures WrittenAs(data, offset, d, front, next)
    decreases d
  {
    match ItemAt(data, offset) {
      case End =>
        EndWritten(data, offset);
        hide ItemAt;
        front, next := [], None;
      case Pointer(to) =>
        PointerWritten(data, offset, to);
        hide ItemAt;
        front, next := [], Some(to);
        assert [] + LabelsFrom(data, to, d - 1) == LabelsFrom(data, to, d - 1);
      case Label(content) =>
        var rest;
        rest, next := NameWritten(data, offset + 1 + |content|, d - 1);
        LabelBefore(data, offset, d, content, rest, next);
        front := [content] + rest;
    }
  }

  /** Every name that is read is written as one of the two forms that are read back:
      plain labels and an end, or labels and a pointer to a name that is read too. */
  lemma ReadIsWritten(data: Bytes, offset: nat) returns (front: seq<Bytes>, next: Option<nat>)
    requires Walk(data, offset, {}, [], None).Success?
    ensures var n := Walk(data, offset, {}, [], None).value;
            var at := offset + Width(front);
            && LabelsOk(front) && StandAt(data, offset, front)
            && match next
               case None => at < |data| && data[at] == 0 && n == Name(front, at + 1, |front| + 1)
               case Some(target) =>
                 && PointerAt(data, at, target) && Walk(data, target, {}, [], None).Success?
                 && var back := Walk(data, target, {}, [], None).value;
                    n == Name(front + back.labels, at + 2, |front| + back.steps + 1)
  {
    hide Walk, Reaches, LabelsFrom, EndFrom, StandAt, PointerAt, ItemAt;
    DecodesExactly(data, offset);
    var d: nat :| d < MAX_VISITS && Reaches(data, offset, d);
    front, next := NameWritten(data, offset, d);
    if next.Some? {
      DecodesExactly(data, next.value);
    }
  }

  // ---- The text of a name --------------------------------------------------

  function LowerAll(labels: seq<Bytes>): (r: seq<Bytes>)
    ensures |r| == |labels| && forall i | 0 <= i < |labels| :: r[i] == Lower(labels[i])
  {
    seq(|labels|, i requires 0 <= i < |labels| => Lower(labels[i]))
  }

  lemma {:induction false} LowerJoined(labels: seq<Bytes>)
    requires labels != []
    ensures Lower(Join(labels, 46)) == Join(LowerAll(labels), 46)
  {
    if |labels| > 1 {
      LowerJoined(labels[1..]);
      assert LowerAll(labels)[1..] == LowerAll(labels[1..]);
      var rest := Join(labels[1..], 46);
      assert Lower(labels[0] + [46] + rest) == Lower(labels[0]) + [46] + Lower(rest);
    }
  }

  /** The text is the labels in lower case with dots between them: where no label holds
      a dot, splitting it at the dots gives them back. */
  lemma TextExactly(labels: seq<Bytes>)
    requires labels != []
    ensures NameText(labels) == Join(LowerAll(labels), 46)
    ensures forall i, j | 0 <= i < |labels| && 0 <= j < |labels[i]| ::
              && |LowerAll(labels)[i]| == |labels[i]|
              && LowerAll(labels)[i][j] ==
                 if 'A' as int <= labels[i][j] <= 'Z' as int then labels[i][j] + 32 else labels[i][j]
    ensures (forall i | 0 <= i < |labels| :: 46 !in labels[i]) ==> Split(NameText(labels), 46) == LowerAll(labels)
  {
    LowerJoined(labels);
    if forall i | 0 <= i < |labels| :: 46 !in labels[i] {
      forall i | 0 <= i < |labels| ensures 46 !in Lower(labels[i]) {
        assert forall j | 0 <= j < |labels[i]| :: labels[i][j] in labels[i];
      }
      SplitJoin(LowerAll(labels), 46);
    }
  }
}
