/** Well-formed UTF-8, the syntax of section 4 of RFC 3629: what `str::from_utf8`
    accepts and what every Rust string holds. */
module Utf8 {
  predicate Tail(b: nat) {
    0x80 <= b <= 0xBF
  }

  /** Octets of the character at the front; zero when it is ill-formed. */
  function Front(s: seq<nat>): (n: nat)
    ensures n <= |s|
    ensures forall k | 1 <= k < n :: Tail(s[k])
  {
    if s == [] then 0
    else if s[0] < 0x80 then 1
    else if 0xC2 <= s[0] <= 0xDF && |s| >= 2 && Tail(s[1]) then 2
    else if 0xE0 <= s[0] <= 0xEF && |s| >= 3 && Tail(s[1]) && Tail(s[2]) && Second(s[0], s[1]) then 3
    else if 0xF0 <= s[0] <= 0xF4 && |s| >= 4 && Tail(s[1]) && Tail(s[2]) && Tail(s[3]) && Second(s[0], s[1]) then 4
    else 0
  }

  /** No overlong form, no surrogate, nothing above U+10FFFF. */
  predicate Second(lead: nat, b: nat) {
    && (lead == 0xE0 ==> b >= 0xA0)
    && (lead == 0xED ==> b <= 0x9F)
    && (lead == 0xF0 ==> b >= 0x90)
    && (lead == 0xF4 ==> b <= 0x8F)
  }

  predicate Valid(s: seq<nat>)
    decreases |s|
  {
    s == [] || (Front(s) > 0 && Valid(s[Front(s)..]))
  }

  lemma FrontExtends(a: seq<nat>, b: seq<nat>)
    requires Front(a) > 0
    ensures Front(a + b) == Front(a)
  {
  }

  lemma {:induction false} ValidConcat(a: seq<nat>, b: seq<nat>)
    requires Valid(a)
    ensures Valid(a + b) <==> Valid(b)
    decreases |a|
  {
    if a == [] {
      assert a + b == b;
    } else {
      FrontExtends(a, b);
      assert (a + b)[Front(a)..] == a[Front(a)..] + b;
      ValidConcat(a[Front(a)..], b);
    }
  }

  lemma {:induction false} ValidAscii(s: seq<nat>)
    requires forall i | 0 <= i < |s| :: s[i] < 0x80
    ensures Valid(s)
  {
    if s != [] {
      ValidAscii(s[1..]);
    }
  }

  /** An ASCII octet is a character of its own. */
  lemma {:induction false} ValidAround(a: seq<nat>, c: nat, b: seq<nat>)
    requires Valid(a + [c] + b) && c < 0x80
    ensures Valid(a) && Valid(b)
    decreases |a|
  {
    var s := a + [c] + b;
    var n := Front(s);
    if a == [] {
      assert s[0] == c && s[1..] == b;
    } else {
      assert n <= |a| by {
        assert s[|a|] == c;
      }
      assert Front(a) == n by {
        assert forall k | 0 <= k < n :: s[k] == a[k];
      }
      assert s[n..] == a[n..] + [c] + b;
      ValidAround(a[n..], c, b);
    }
  }

  // ---- Characters ----------------------------------------------------------

  /** The code points there are: no surrogates, none above U+10FFFF. */
  predicate Scalar(c: nat) {
    c < 0xD800 || 0xE000 <= c < 0x110000
  }

  /** The octets of one character, section 3 of RFC 3629. */
  function Encode(c: nat): (s: seq<nat>)
    ensures s != []
  {
    if c < 0x80 then [c]
    else if c < 0x800 then [0xC0 + c / 64, 0x80 + c % 64]
    else if c < 0x10000 then [0xE0 + c / 4096, 0x80 + c / 64 % 64, 0x80 + c % 64]
    else [0xF0 + c / 262144, 0x80 + c / 4096 % 64, 0x80 + c / 64 % 64, 0x80 + c % 64]
  }

  function EncodeAll(points: seq<nat>): (s: seq<nat>) {
    if points == [] then [] else Encode(points[0]) + EncodeAll(points[1..])
  }

  ghost predicate AllScalar(points: seq<nat>) {
    forall i | 0 <= i < |points| :: Scalar(points[i])
  }

  lemma FrontOfEncoding(c: nat, rest: seq<nat>)
    requires Scalar(c)
    ensures Front(Encode(c) + rest) == |Encode(c)|
  {
  }

  lemma TwoOctets(a: nat, b: nat)
    requires 0xC2 <= a <= 0xDF && Tail(b)
    ensures var c := (a - 0xC0) * 64 + (b - 0x80);
            Scalar(c) && Encode(c) == [a, b]
  {
  }

  lemma ThreeOctets(a: nat, b: nat, d: nat)
    requires 0xE0 <= a <= 0xEF && Tail(b) && Tail(d) && Second(a, b)
    ensures var c := (a - 0xE0) * 4096 + (b - 0x80) * 64 + (d - 0x80);
            Scalar(c) && Encode(c) == [a, b, d]
  {
  }

  /** Six bits at a time. */
  lemma SixBits(x: nat, y: nat)
    requires y < 64
    ensures (x * 64 + y) / 64 == x && (x * 64 + y) % 64 == y
  {
  }

  lemma Sixes(c: nat)
    ensures c / 4096 == c / 64 / 64 && c / 262144 == c / 4096 / 64
  {
  }

  lemma FourOctets(a: nat, b: nat, d: nat, e: nat)
    requires 0xF0 <= a <= 0xF4 && Tail(b) && Tail(d) && Tail(e) && Second(a, b)
    ensures var c := (a - 0xF0) * 262144 + (b - 0x80) * 4096 + (d - 0x80) * 64 + (e - 0x80);
            Scalar(c) && Encode(c) == [a, b, d, e]
  {
    var w, x, y, z := a - 0xF0, b - 0x80, d - 0x80, e - 0x80;
    var p := w * 64 + x;
    var q := p * 64 + y;
    var c := q * 64 + z;
    assert c == w * 262144 + x * 4096 + y * 64 + z;
    assert 0x10 <= p < 0x110;
    assert 0x10000 <= c < 0x110000;
    SixBits(w, x);
    SixBits(p, y);
    SixBits(q, z);
    Sixes(c);
  }

  /** The character at the front. */
  lemma EncodingOfFront(s: seq<nat>) returns (c: nat)
    requires Front(s) > 0
    ensures Scalar(c) && Encode(c) == s[..Front(s)]
  {
    var n := Front(s);
    if n == 1 {
      c := s[0];
    } else if n == 2 {
      TwoOctets(s[0], s[1]);
      c := (s[0] - 0xC0) * 64 + (s[1] - 0x80);
    } else if n == 3 {
      ThreeOctets(s[0], s[1], s[2]);
      c := (s[0] - 0xE0) * 4096 + (s[1] - 0x80) * 64 + (s[2] - 0x80);
    } else {
      FourOctets(s[0], s[1], s[2], s[3]);
      c := (s[0] - 0xF0) * 262144 + (s[1] - 0x80) * 4096 + (s[2] - 0x80) * 64 + (s[3] - 0x80);
    }
    hide Encode, Scalar;
  }

  lemma {:induction false} Decoded(s: seq<nat>) returns (points: seq<nat>)
    requires Valid(s)
    ensures AllScalar(points) && EncodeAll(points) == s
    decreases |s|
  {
    hide Front, Encode, Scalar;
    if s == [] {
      points := [];
    } else {
      var n := Front(s);
      var c := EncodingOfFront(s);
      var rest := Decoded(s[n..]);
      points := [c] + rest;
      assert points[1..] == rest;
    }
  }

  lemma {:induction false} EncodedIsValid(points: seq<nat>)
    requires AllScalar(points)
    ensures Valid(EncodeAll(points))
  {
    hide Front, Encode, Scalar;
    if points != [] {
      var c, rest := points[0], EncodeAll(points[1..]);
      EncodedIsValid(points[1..]);
      FrontOfEncoding(c, rest);
      assert (Encode(c) + rest)[|Encode(c)|..] == rest;
    }
  }

  /** The well-formed octet strings are exactly the encodings of character sequences. */
  lemma ValidExactly(s: seq<nat>)
    ensures Valid(s) <==> exists points :: AllScalar(points) && EncodeAll(points) == s
  {
    hide Valid, EncodeAll, AllScalar;
    if Valid(s) {
      var points := Decoded(s);
    }
    forall points | AllScalar(points) && EncodeAll(points) == s ensures Valid(s) {
      EncodedIsValid(points);
    }
  }
}
