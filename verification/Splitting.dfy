/** Splitting at one separator, as `split` does on strings and byte slices, and
    its inverse. */
module Splitting {

  /** `split` at one separator: never an empty list. */
  function Split<T(==)>(s: seq<T>, d: T): (r: seq<seq<T>>)
    ensures r != []
  {
    if s == [] then [[]]
    else
      var rest := Split(s[1..], d);
      if s[0] == d then [[]] + rest else Prepend(s[0], rest)
  }

  /** An element put in front of the first part. */
  function Prepend<T>(c: T, parts: seq<seq<T>>): (r: seq<seq<T>>)
    requires parts != []
    ensures |r| == |parts| && r[0] == [c] + parts[0] && r[1..] == parts[1..]
  {
    [[c] + parts[0]] + parts[1..]
  }

  lemma PrependConcat<T>(c: T, a: seq<seq<T>>, b: seq<seq<T>>)
    requires a != []
    ensures Prepend(c, a + b) == Prepend(c, a) + b
  {
    assert (a + b)[1..] == a[1..] + b;
  }

  function Join<T>(labels: seq<seq<T>>, d: T): (s: seq<T>)
    requires labels != []
  {
    if |labels| == 1 then labels[0] else labels[0] + [d] + Join(labels[1..], d)
  }

  lemma {:induction false} JoinSplit<T>(s: seq<T>, d: T)
    ensures Join(Split(s, d), d) == s
  {
    if s != [] {
      JoinSplit(s[1..], d);
      var rest, whole := Split(s[1..], d), Split(s, d);
      if s[0] == d {
        assert whole[1..] == rest;
      } else if |rest| > 1 {
        assert whole[1..] == rest[1..];
        assert Join(whole, d) == [s[0]] + Join(rest, d);
      }
    }
  }

  lemma {:induction false} SplitConcat<T>(a: seq<T>, b: seq<T>, d: T)
    ensures Split(a + [d] + b, d) == Split(a, d) + Split(b, d)
  {
    var s := a + [d] + b;
    if a == [] {
      assert s[0] == d && s[1..] == b;
    } else {
      var rest, tail := Split(a[1..], d), Split(b, d);
      assert Split(s[1..], d) == rest + tail by {
        SplitConcat(a[1..], b, d);
        assert s[1..] == a[1..] + [d] + b;
      }
      assert s[0] == a[0];
      if a[0] == d {
        assert [[]] + (rest + tail) == ([[]] + rest) + tail;
      } else {
        PrependConcat(a[0], rest, tail);
      }
    }
  }

  lemma {:induction false} SplitWhole<T>(s: seq<T>, d: T)
    requires d !in s
    ensures Split(s, d) == [s]
  {
    if s != [] {
      SplitWhole(s[1..], d);
      assert [s[0]] + s[1..] == s && s[0] in s;
    }
  }

  /** Splitting undoes joining when no part holds the separator. */
  lemma {:induction false} SplitJoin<T>(parts: seq<seq<T>>, d: T)
    requires parts != [] && forall i | 0 <= i < |parts| :: d !in parts[i]
    ensures Split(Join(parts, d), d) == parts
  {
    SplitWhole(parts[0], d);
    if |parts| > 1 {
      SplitJoin(parts[1..], d);
      SplitConcat(parts[0], Join(parts[1..], d), d);
      assert [parts[0]] + parts[1..] == parts;
    } else {
      assert parts == [parts[0]];
    }
  }

  lemma {:induction false} JoinConcat<T>(a: seq<seq<T>>, b: seq<seq<T>>, d: T)
    requires a != [] && b != []
    ensures Join(a + b, d) == Join(a, d) + [d] + Join(b, d)
  {
    if |a| == 1 {
      assert (a + b)[1..] == b;
    } else {
      JoinConcat(a[1..], b, d);
      assert (a + b)[1..] == a[1..] + b;
    }
  }

  lemma {:induction false} PartWithin<T>(s: seq<T>, d: T, i: nat, c: T)
    requires i < |Split(s, d)| && c in Split(s, d)[i]
    ensures c in s && c != d
  {
    if s != [] {
      var rest, whole := Split(s[1..], d), Split(s, d);
      assert s == [s[0]] + s[1..];
      if s[0] == d {
        assert i > 0 && whole[i] == rest[i - 1];
        PartWithin(s[1..], d, i - 1, c);
      } else if i > 0 || c in rest[0] {
        PartWithin(s[1..], d, i, c);
      }
    }
  }

  lemma {:induction false} InSomePart<T>(s: seq<T>, d: T, c: T) returns (i: nat)
    requires c in s && c != d
    ensures i < |Split(s, d)| && c in Split(s, d)[i]
  {
    var rest, whole := Split(s[1..], d), Split(s, d);
    if s[0] == c {
      i := 0;
    } else {
      assert s == [s[0]] + s[1..];
      i := InSomePart(s[1..], d, c);
      if s[0] == d {
        assert whole[i + 1] == rest[i];
        i := i + 1;
      }
    }
  }

  lemma SplitThree<T>(a: seq<T>, b: seq<T>, c: seq<T>, d: T)
    requires d !in a && d !in b && d !in c
    ensures Split(a + [d] + (b + [d] + c), d) == [a, b, c]
  {
    SplitConcat(a, b + [d] + c, d);
    SplitConcat(b, c, d);
    SplitWhole(a, d);
    SplitWhole(b, d);
    SplitWhole(c, d);
    hide Split;
    assert [a] + ([b] + [c]) == [a, b, c];
  }
}
