/** Decimal numerals, and what a Content-Length field says. */
module Numerals {
  import opened Prelude
  import opened Http1

  function DigitChar(d: nat): (c: char)
    requires d < 10
  {
    ('0' as int + d) as char
  }

  /** The usual numeral: the digits of `n / 10`, then `n % 10`. */
  function Numeral(n: nat): (s: string)
    ensures s != ""
  {
    if n < 10 then [DigitChar(n)] else Numeral(n / 10) + [DigitChar(n % 10)]
  }

  function Zeros(k: nat): (s: string)
    ensures |s| == k && forall i | 0 <= i < k :: s[i] == '0'
  {
    seq(k, _ => '0')
  }

  /** A text that denotes a number: its numeral behind any number of zeros. */
  ghost predicate Denotes(s: string, n: nat) {
    exists k: nat :: s == Zeros(k) + Numeral(n)
  }

  lemma ValueAppend(s: string, c: char)
    requires Digits(s) && Digit(c)
    ensures Digits(s + [c]) && DecimalValue(s + [c]) == 10 * DecimalValue(s) + (c as int - '0' as int)
  {
    assert (s + [c])[..|s|] == s;
  }

  lemma {:induction false} NumeralValue(n: nat)
    ensures Digits(Numeral(n)) && DecimalValue(Numeral(n)) == n
  {
    if n < 10 {
      ValueAppend("", DigitChar(n));
      assert "" + [DigitChar(n)] == [DigitChar(n)];
    } else {
      NumeralValue(n / 10);
      ValueAppend(Numeral(n / 10), DigitChar(n % 10));
    }
  }

  lemma {:induction false} ZerosAreZero(k: nat)
    ensures Digits(Zeros(k)) && DecimalValue(Zeros(k)) == 0
  {
    if k > 0 {
      ZerosAreZero(k - 1);
      ValueAppend(Zeros(k - 1), '0');
      assert Zeros(k) == Zeros(k - 1) + ['0'];
    }
  }

  lemma {:induction false} ZerosIgnored(k: nat, s: string)
    requires Digits(s)
    ensures Digits(Zeros(k) + s) && DecimalValue(Zeros(k) + s) == DecimalValue(s)
  {
    if s == "" {
      ZerosAreZero(k);
      assert Zeros(k) + s == Zeros(k);
    } else {
      var init, last := s[..|s| - 1], s[|s| - 1];
      ZerosIgnored(k, init);
      ValueAppend(Zeros(k) + init, last);
      ValueAppend(init, last);
      hide DecimalValue, Zeros;
      assert init + [last] == s && Zeros(k) + s == Zeros(k) + init + [last];
    }
  }

  lemma NumeralGrows(v: nat, d: nat)
    requires d < 10
    ensures Numeral(10 * v + d) == if v == 0 then [DigitChar(d)] else Numeral(v) + [DigitChar(d)]
  {
    assert v > 0 ==> (10 * v + d) / 10 == v && (10 * v + d) % 10 == d;
  }

  /** One more digit. */
  lemma DenoteGrows(s: string, v: nat, d: nat)
    requires Denotes(s, v) && d < 10
    ensures Denotes(s + [DigitChar(d)], 10 * v + d)
  {
    NumeralGrows(v, d);
    hide Numeral;
    var k: nat :| s == Zeros(k) + Numeral(v);
    if v == 0 {
      NumeralGrows(0, 0);
      assert s == Zeros(k + 1);
      assert s + [DigitChar(d)] == Zeros(k + 1) + Numeral(10 * v + d);
    } else {
      assert s + [DigitChar(d)] == Zeros(k) + Numeral(10 * v + d);
    }
  }

  lemma DigitDenotes(d: nat)
    requires d < 10
    ensures Denotes([DigitChar(d)], d)
  {
    assert [DigitChar(d)] == Zeros(0) + Numeral(d);
  }

  /** Digits always denote their value. */
  lemma {:induction false} DigitsDenote(s: string)
    requires s != "" && Digits(s)
    ensures Denotes(s, DecimalValue(s))
  {
    var init, last := s[..|s| - 1], s[|s| - 1];
    var d := last as int - '0' as int;
    assert s == init + [last] && last == DigitChar(d);
    ValueAppend(init, last);
    assert init == "" ==> DecimalValue(init) == 0;
    hide DecimalValue, Denotes, DigitChar;
    if init == "" {
      DigitDenotes(d);
    } else {
      DigitsDenote(init);
      DenoteGrows(init, DecimalValue(init), d);
    }
  }

  /** What is accepted as a length, and as which: exactly the numerals up to the
      largest 64-bit integer, leading zeros or not; larger ones are too large, and
      anything else is no number. */
  lemma ContentLengthExactly(s: string)
    ensures forall n: nat :: ParseContentLength(s) == Success(n) <==> Denotes(s, n) && n <= U64_MAX
    ensures ParseContentLength(s) == Failure(LengthTooLarge) <==> exists n: nat :: Denotes(s, n) && n > U64_MAX
    ensures ParseContentLength(s) == Failure(LengthNotDecimal) <==> forall n: nat :: !Denotes(s, n)
  {
    forall n: nat | Denotes(s, n) ensures s != "" && Digits(s) && DecimalValue(s) == n {
      var k: nat :| s == Zeros(k) + Numeral(n);
      NumeralValue(n);
      ZerosIgnored(k, Numeral(n));
    }
    hide Denotes;
    if s != "" && Digits(s) {
      DigitsDenote(s);
    }
  }
}
