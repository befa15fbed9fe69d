/** Removing the fields that belong to one hop before a request is forwarded,
    section 7.6.1 of RFC 9110. */
module HopByHop {
  import opened Prelude
  import opened Splitting
  import opened Http1

  predicate IsHopByHop(name: string) {
    || name == "connection" || name == "keep-alive" || name == "proxy-authenticate" || name == "proxy-authorization"
    || name == "proxy-connection" || name == "te" || name == "trailer" || name == "transfer-encoding"
    || name == "upgrade"
  }

  /** `HeaderValue::to_str` succeeds. */
  predicate Visible(s: string) {
    forall i | 0 <= i < |s| :: 32 <= s[i] as int < 127 || s[i] == '\t'
  }

  /** The field names among comma-separated parts. */
  function NamesIn(parts: seq<string>): (r: seq<string>) {
    if parts == [] then []
    else
      var earlier := NamesIn(parts[..|parts| - 1]);
      match HeaderName(Trim(parts[|parts| - 1]))
      case None => earlier
      case Some(name) => earlier + [name]
  }

  function NamedIn(field: Header): (r: seq<string>) {
    if field.name == "connection" && Visible(field.value) then NamesIn(Split(field.value, ',')) else []
  }

  function ConnectionNamed(headers: seq<Header>): (r: seq<string>) {
    if headers == [] then []
    else ConnectionNamed(headers[..|headers| - 1]) + NamedIn(headers[|headers| - 1])
  }

  predicate Kept(field: Header, named: seq<string>) {
    !IsHopByHop(field.name) && field.name !in named && field.name != "host" && field.name != "content-length"
  }

  function KeepOnly(headers: seq<Header>, named: seq<string>): (r: seq<Header>) {
    if headers == [] then []
    else
      var earlier, last := KeepOnly(headers[..|headers| - 1], named), headers[|headers| - 1];
      if Kept(last, named) then earlier + [last] else earlier
  }

  function Strip(headers: seq<Header>): (r: seq<Header>) {
    KeepOnly(headers, ConnectionNamed(headers))
  }

  /** `strip_hop_by_hop` as written: collect the names, then filter. */
  method StripHopByHop(headers: seq<Header>) returns (kept: seq<Header>)
    ensures kept == Strip(headers)
  {
    hide Kept, HeaderName, Trim, Visible;
    var named := [];
    for i := 0 to |headers|
      invariant named == ConnectionNamed(headers[..i])
    {
      assert headers[..i + 1][..i] == headers[..i];
      if headers[i].name == "connection" && Visible(headers[i].value) {
        var names := CollectNames(Split(headers[i].value, ','));
        named := named + names;
      }
    }
    assert headers[..|headers|] == headers;
    kept := [];
    for i := 0 to |headers|
      invariant kept == KeepOnly(headers[..i], named)
    {
      assert headers[..i + 1][..i] == headers[..i];
      if Kept(headers[i], named) {
        kept := kept + [headers[i]];
      }
    }
  }

  method CollectNames(parts: seq<string>) returns (names: seq<string>)
    ensures names == NamesIn(parts)
  {
    names := [];
    for i := 0 to |parts|
      invariant names == NamesIn(parts[..i])
    {
      assert parts[..i + 1][..i] == parts[..i];
      var name := HeaderName(Trim(parts[i]));
      if name.Some? {
        names := names + [name.value];
      }
    }
    assert parts[..|parts|] == parts;
  }

  // ---- Which fields go -----------------------------------------------------

  lemma {:induction false} NamesInMeaning(parts: seq<string>, name: string)
    ensures name in NamesIn(parts) <==>
            exists j | 0 <= j < |parts| :: HeaderName(Trim(parts[j])) == Some(name)
  {
    if parts != [] {
      var front, n := parts[..|parts| - 1], |parts| - 1;
      NamesInMeaning(front, name);
      if j :| 0 <= j < |parts| && HeaderName(Trim(parts[j])) == Some(name) {
        assert j < n ==> front[j] == parts[j];
      }
      if j :| 0 <= j < |front| && HeaderName(Trim(front[j])) == Some(name) {
        assert parts[j] == front[j];
      }
    }
  }

  /** A Connection field lists this name, in any case, as one of its options. */
  ghost predicate Lists(field: Header, name: string) {
    && field.name == "connection" && Visible(field.value)
    && exists j | 0 <= j < |Split(field.value, ',')| :: HeaderName(Trim(Split(field.value, ',')[j])) == Some(name)
  }

  lemma {:induction false} ConnectionNamedMeaning(headers: seq<Header>, name: string)
    ensures name in ConnectionNamed(headers) <==> exists i | 0 <= i < |headers| :: Lists(headers[i], name)
  {
    if headers != [] {
      var front, n := headers[..|headers| - 1], |headers| - 1;
      ConnectionNamedMeaning(front, name);
      var last := headers[n];
      NamesInMeaning(Split(last.value, ','), name);
      assert name in NamedIn(last) <==> Lists(last, name);
      hide Lists, NamedIn;
      if i :| 0 <= i < |headers| && Lists(headers[i], name) {
        assert i < n ==> front[i] == headers[i];
      }
      if i :| 0 <= i < |front| && Lists(front[i], name) {
        assert headers[i] == front[i];
      }
    }
  }

  /** Positions of the fields that stay. */
  function KeptAt(headers: seq<Header>, named: seq<string>): (r: seq<nat>) {
    if headers == [] then []
    else
      var earlier, n := KeptAt(headers[..|headers| - 1], named), |headers| - 1;
      if Kept(headers[n], named) then earlier + [n] else earlier
  }

  ghost predicate Increasing(at: seq<nat>) {
    forall j, k | 0 <= j < k < |at| :: at[j] < at[k]
  }

  lemma {:induction false} KeptAtExactly(headers: seq<Header>, named: seq<string>, i: nat)
    ensures i in KeptAt(headers, named) <==> i < |headers| && Kept(headers[i], named)
  {
    hide Kept;
    if headers != [] {
      var front := headers[..|headers| - 1];
      KeptAtExactly(front, named, i);
      assert i < |front| ==> front[i] == headers[i];
    }
  }

  /** Filtering selects, in order and once each, exactly the positions that stay. */
  lemma {:induction false} KeepOnlySelects(headers: seq<Header>, named: seq<string>)
    ensures var at := KeptAt(headers, named);
            && Increasing(at) && |KeepOnly(headers, named)| == |at|
            && (forall k | 0 <= k < |at| :: at[k] < |headers| && KeepOnly(headers, named)[k] == headers[at[k]])
    ensures forall i: nat :: i in KeptAt(headers, named) <==> i < |headers| && Kept(headers[i], named)
  {
    hide Kept;
    forall i: nat ensures i in KeptAt(headers, named) <==> i < |headers| && Kept(headers[i], named) {
      KeptAtExactly(headers, named, i);
    }
    if headers != [] {
      KeepOnlySelects(headers[..|headers| - 1], named);
    }
  }

  /** The fields that never go on: those of one hop, and those rewritten for the
      upstream. */
  const END_TO_END_EXCEPT: set<string> := {
    "connection", "keep-alive", "proxy-authenticate", "proxy-authorization", "proxy-connection", "te", "trailer",
    "transfer-encoding", "upgrade", "host", "content-length"
  }

  lemma ExceptedExactly(name: string)
    ensures name in END_TO_END_EXCEPT <==> IsHopByHop(name) || name == "host" || name == "content-length"
  {
  }

  /** A field stays exactly when it is end to end: not hop-by-hop, not listed by
      a Connection field, not rewritten for the upstream; the rest keep their order. */
  lemma StripKeepsExactly(headers: seq<Header>, field: Header)
    ensures field in Strip(headers) <==>
            && field in headers && field.name !in END_TO_END_EXCEPT
            && !exists i | 0 <= i < |headers| :: Lists(headers[i], field.name)
  {
    var named := ConnectionNamed(headers);
    KeepOnlySelects(headers, named);
    ConnectionNamedMeaning(headers, field.name);
    ExceptedExactly(field.name);
    hide Lists, ConnectionNamed, KeepOnly, KeptAt, IsHopByHop;
    var at := KeptAt(headers, named);
    if field in Strip(headers) {
      var k :| 0 <= k < |Strip(headers)| && Strip(headers)[k] == field;
      assert at[k] in at;
    }
    if field in headers && Kept(field, named) {
      var i :| 0 <= i < |headers| && headers[i] == field;
      assert i in at;
      var k :| 0 <= k < |at| && at[k] == i;
      assert Strip(headers)[k] == field;
    }
  }

  lemma {:induction false} KeepOnlyAll(headers: seq<Header>, named: seq<string>)
    requires forall i | 0 <= i < |headers| :: Kept(headers[i], named)
    ensures KeepOnly(headers, named) == headers
  {
    hide Kept;
    if headers != [] {
      KeepOnlyAll(headers[..|headers| - 1], named);
    }
  }

  lemma {:induction false} NothingNamed(headers: seq<Header>)
    requires forall i | 0 <= i < |headers| :: headers[i].name != "connection"
    ensures ConnectionNamed(headers) == []
  {
    if headers != [] {
      NothingNamed(headers[..|headers| - 1]);
    }
  }

  /** Stripping twice is stripping once. */
  lemma StripIdempotent(headers: seq<Header>)
    ensures Strip(Strip(headers)) == Strip(headers)
  {
    var named := ConnectionNamed(headers);
    var once := Strip(headers);
    KeepOnlySelects(headers, named);
    var at := KeptAt(headers, named);
    forall k | 0 <= k < |once| ensures Kept(once[k], named) {
      assert at[k] in at;
    }
    NothingNamed(once);
    KeepOnlyAll(once, []);
  }
}
