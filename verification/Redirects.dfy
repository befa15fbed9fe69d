/** Forwarding a credentialed request and following redirects, under a credential
    rule. URL parsing, the injection of the secret and the transport are given. */
module Redirects {
  import opened Prelude
  import opened Http1
  import HopByHop

  datatype Url = Url(
    scheme: string,
    username: string,
    password: Option<string>,
    host: Option<string>,
    port: Option<nat>,
    path: string,
    query: string)

  datatype RedirectPolicy = Deny | SameTarget

  datatype Rule = Rule(
    tlsRequired: bool,
    targetHost: string,
    pathPrefix: string,
    allowedMethods: set<string>,
    maxRequestBody: nat,
    maxResponseBody: nat,
    redirectPolicy: RedirectPolicy)

  datatype Response = Response(status: nat, headers: seq<Header>, body: string)

  datatype RedirectError =
    | TlsRequired | UserInfoForbidden | TargetMismatch | MethodDenied | RequestTooLarge | InjectionFailed
    | TransportFailed | ResponseTooLarge | ResponseHeaders | RedirectLimit | NoLocation | DuplicateLocation
    | LocationNotAscii | LocationInvalid | RedirectDenied | UnsafeStatus | InvalidState

  datatype Bounds = Bounds(maxRedirects: nat, maxHeaderCount: nat, maxHeaderBytes: nat)

  /** What is given: the answer to the n-th request sent, relative resolution of a
      location, and whether the secret can be injected. */
  datatype Env = Env(
    send: nat -> Option<Response>,
    join: (Url, string) -> Option<Url>,
    injects: (string, Url) -> bool)

  // ---- The rule ------------------------------------------------------------

  function ValidateUrl(rule: Rule, url: Url): (e: Option<RedirectError>) {
    if !rule.tlsRequired || url.scheme != "https" then Some(TlsRequired)
    else if url.username != "" || url.password.Some? then Some(UserInfoForbidden)
    else if url.host != Some(rule.targetHost) || url.port != Some(443) || !(rule.pathPrefix <= url.path) then
      Some(TargetMismatch)
    else None
  }

  function ValidateRequest(rule: Rule, verb: string, url: Url, body: string): (e: Option<RedirectError>) {
    match ValidateUrl(rule, url)
    case Some(e) => Some(e)
    case None =>
      if verb !in rule.allowedMethods then Some(MethodDenied)
      else if |body| > rule.maxRequestBody then Some(RequestTooLarge)
      else None
  }

  function AuthorizeRedirect(rule: Rule, source: Url, to: Url): (e: Option<RedirectError>) {
    match rule.redirectPolicy
    case Deny => Some(RedirectDenied)
    case SameTarget =>
      match ValidateUrl(rule, to)
      case Some(e) => Some(e)
      case None =>
        if source.scheme != to.scheme || source.host != to.host || source.port != to.port then Some(RedirectDenied)
        else None
  }

  // ---- Responses -----------------------------------------------------------

  function HeaderOctets(headers: seq<Header>): (n: nat) {
    if headers == [] then 0
    else
      var last := headers[|headers| - 1];
      HeaderOctets(headers[..|headers| - 1]) + |last.name| + |last.value| + 4
  }

  function ValidateResponse(rule: Rule, b: Bounds, r: Response): (e: Option<RedirectError>) {
    if |r.body| > rule.maxResponseBody then Some(ResponseTooLarge)
    else if |r.headers| > b.maxHeaderCount || HeaderOctets(r.headers) > b.maxHeaderBytes then Some(ResponseHeaders)
    else None
  }

  predicate IsRedirection(status: nat) {
    300 <= status < 400
  }

  function Locations(headers: seq<Header>): (r: seq<string>) {
    if headers == [] then []
    else
      var earlier, last := Locations(headers[..|headers| - 1]), headers[|headers| - 1];
      if last.name == "location" then earlier + [last.value] else earlier
  }

  function SingleLocation(headers: seq<Header>): (r: Result<string, RedirectError>) {
    var locations := Locations(headers);
    if locations == [] then Failure(NoLocation)
    else if |locations| > 1 then Failure(DuplicateLocation)
    else if !HopByHop.Visible(locations[0]) then Failure(LocationNotAscii)
    else Success(locations[0])
  }

  /** `apply_redirect_semantics`: the method and body of the next request. */
  function Semantics(status: nat, verb: string, body: string): (r: Option<(string, string)>) {
    if status == 307 || status == 308 then Some((verb, body))
    else if (status == 301 || status == 302) && (verb == "GET" || verb == "HEAD") then Some((verb, body))
    else if status == 303 then Some((if verb == "HEAD" then "HEAD" else "GET", ""))
    else None
  }

  // ---- The loop ------------------------------------------------------------

  /** A request that was sent, and the status that came back if one did. */
  datatype Exchange = Exchange(verb: string, url: Url, body: string, status: Option<nat>)

  datatype Outcome = Outcome(result: Result<Response, RedirectError>, sent: seq<Exchange>)

  /** What one answer leads to: an end, or the next request. */
  datatype Turn = End(result: Result<Response, RedirectError>) | Continue(verb: string, url: Url, body: string)

  function Answer(env: Env, rule: Rule, b: Bounds, redirects: nat, verb: string, url: Url, body: string,
      r: Response): (t: Turn)
  {
    var invalid := ValidateResponse(rule, b, r);
    if invalid.Some? then End(Failure(invalid.value))
    else if !IsRedirection(r.status) then End(Success(r))
    else if redirects == b.maxRedirects then End(Failure(RedirectLimit))
    else match SingleLocation(r.headers)
      case Failure(e) => End(Failure(e))
      case Success(location) =>
        match env.join(url, location)
        case None => End(Failure(LocationInvalid))
        case Some(next) =>
          var denied := AuthorizeRedirect(rule, url, next);
          if denied.Some? then End(Failure(denied.value))
          else match Semantics(r.status, verb, body)
            case None => End(Failure(UnsafeStatus))
            case Some((v, c)) => Continue(v, next, c)
  }

  /** The loop from turn `redirects` on. */
  function Follow(env: Env, rule: Rule, b: Bounds, redirects: nat, verb: string, url: Url, body: string): (o: Outcome)
    decreases b.maxRedirects + 1 - redirects
  {
    if redirects > b.maxRedirects then Outcome(Failure(InvalidState), [])
    else
      var refused := ValidateRequest(rule, verb, url, body);
      if refused.Some? then Outcome(Failure(refused.value), [])
      else if !env.injects(verb, url) then Outcome(Failure(InjectionFailed), [])
      else match env.send(redirects)
        case None => Outcome(Failure(TransportFailed), [Exchange(verb, url, body, None)])
        case Some(r) =>
          var sent := Exchange(verb, url, body, Some(r.status));
          match Answer(env, rule, b, redirects, verb, url, body, r)
          case End(result) => Outcome(result, [sent])
          case Continue(v, u, c) =>
            var rest := Follow(env, rule, b, redirects + 1, v, u, c);
            Outcome(rest.result, [sent] + rest.sent)
  }

  /** `forward_with_redirects` as written. */
  method ForwardWithRedirects(env: Env, rule: Rule, b: Bounds, request: Request, start: Url) returns (o: Outcome)
    ensures o == Follow(env, rule, b, 0, request.verb, start, request.body)
  {
    hide Answer, ValidateRequest;
    var verb, body, url, sent := request.verb, request.body, start, [];
    for redirects := 0 to b.maxRedirects + 1
      invariant Follow(env, rule, b, 0, request.verb, start, request.body) ==
                var rest := Follow(env, rule, b, redirects, verb, url, body); Outcome(rest.result, sent + rest.sent)
    {
      var refused := ValidateRequest(rule, verb, url, body);
      if refused.Some? {
        assert sent + [] == sent;
        return Outcome(Failure(refused.value), sent);
      }
      if !env.injects(verb, url) {
        assert sent + [] == sent;
        return Outcome(Failure(InjectionFailed), sent);
      }
      var response := env.send(redirects);
      if response.None? {
        return Outcome(Failure(TransportFailed), sent + [Exchange(verb, url, body, None)]);
      }
      var exchange := Exchange(verb, url, body, Some(response.value.status));
      match Answer(env, rule, b, redirects, verb, url, body, response.value) {
        case End(result) => return Outcome(result, sent + [exchange]);
        case Continue(v, u, c) =>
          ghost var rest := Follow(env, rule, b, redirects + 1, v, u, c);
          assert sent + ([exchange] + rest.sent) == sent + [exchange] + rest.sent;
          sent := sent + [exchange];
          verb, url, body := v, u, c;
      }
    }
    assert sent + [] == sent;
    return Outcome(Failure(InvalidState), sent);
  }

  // ---- What every run sends ------------------------------------------------

  /** The rule holds for a request that was sent. */
  predicate Allowed(rule: Rule, e: Exchange) {
    ValidateRequest(rule, e.verb, e.url, e.body).None?
  }

  /** One authorized redirect leads from a request to the next: the answer to the
      first is a redirection whose only location, resolved against the first URL, is
      the second one, on the same scheme, host and port. */
  predicate Redirected(env: Env, rule: Rule, turn: nat, e: Exchange, f: Exchange) {
    && env.send(turn).Some?
    && var r := env.send(turn).value;
    && e.status == Some(r.status) && IsRedirection(r.status) && rule.redirectPolicy.SameTarget?
    && |Locations(r.headers)| == 1 && env.join(e.url, Locations(r.headers)[0]) == Some(f.url)
    && f.url.scheme == e.url.scheme && f.url.host == e.url.host && f.url.port == e.url.port
    && Semantics(r.status, e.verb, e.body) == Some((f.verb, f.body))
  }

  predicate LinkAt(env: Env, rule: Rule, turn: nat, sent: seq<Exchange>, i: nat)
    requires i + 1 < |sent|
  {
    Redirected(env, rule, turn + i, sent[i], sent[i + 1])
  }

  ghost predicate Chain(env: Env, rule: Rule, turn: nat, sent: seq<Exchange>) {
    forall i: nat | i + 1 < |sent| :: LinkAt(env, rule, turn, sent, i)
  }

  lemma ChainCons(env: Env, rule: Rule, turn: nat, e: Exchange, rest: seq<Exchange>)
    requires Chain(env, rule, turn + 1, rest) && (rest != [] ==> Redirected(env, rule, turn, e, rest[0]))
    ensures Chain(env, rule, turn, [e] + rest)
  {
    hide Redirected;
    var sent := [e] + rest;
    forall i: nat | i + 1 < |sent| ensures LinkAt(env, rule, turn, sent, i) {
      if i > 0 {
        assert LinkAt(env, rule, turn + 1, rest, i - 1);
        assert turn + 1 + (i - 1) == turn + i && sent[i] == rest[i - 1] && sent[i + 1] == rest[i];
      }
    }
  }

  /** What an answer can lead to. */
  lemma AnswerMeans(env: Env, rule: Rule, b: Bounds, turn: nat, verb: string, url: Url, body: string, r: Response)
    ensures match Answer(env, rule, b, turn, verb, url, body, r)
            case End(result) =>
              && result != Failure(InvalidState)
              && (result.Success? ==> result.value == r && !IsRedirection(r.status) && WithinBounds(rule, b, r))
            case Continue(v, u, c) =>
              && turn != b.maxRedirects && IsRedirection(r.status) && rule.redirectPolicy.SameTarget?
              && |Locations(r.headers)| == 1 && env.join(url, Locations(r.headers)[0]) == Some(u)
              && ValidateUrl(rule, u).None? && u.scheme == url.scheme && u.host == url.host && u.port == url.port
              && Semantics(r.status, verb, body) == Some((v, c))
  {
    HeaderOctetsPrinted(r.headers);
    hide Semantics, HeaderOctets, Printed, IsRedirection, Locations;
  }

  // ---- Which answers are followed ------------------------------------------

  /** The only location among the fields. */
  ghost predicate OnlyLocation(headers: seq<Header>, i: nat, location: string) {
    && i < |headers| && headers[i] == Header("location", location)
    && forall j | 0 <= j < |headers| && j != i :: headers[j].name != "location"
  }

  lemma {:induction false} LocationsNone(headers: seq<Header>)
    ensures Locations(headers) == [] <==> forall j | 0 <= j < |headers| :: headers[j].name != "location"
  {
    if headers != [] {
      LocationsNone(headers[..|headers| - 1]);
    }
  }

  lemma OnlyLast(headers: seq<Header>, location: string)
    requires headers != [] && headers[|headers| - 1].name == "location"
    ensures (exists i: nat :: OnlyLocation(headers, i, location)) <==>
            && headers[|headers| - 1].value == location
            && forall j | 0 <= j < |headers| - 1 :: headers[j].name != "location"
  {
    var n := |headers| - 1;
    if headers[n].value == location && forall j | 0 <= j < n :: headers[j].name != "location" {
      assert OnlyLocation(headers, n, location);
    }
    if i: nat :| OnlyLocation(headers, i, location) {
      assert i == n;
    }
  }

  lemma OnlyEarlier(headers: seq<Header>, init: seq<Header>, location: string)
    requires headers != [] && headers[|headers| - 1].name != "location" && init == headers[..|headers| - 1]
    ensures (exists i: nat :: OnlyLocation(headers, i, location)) <==>
            exists i: nat :: OnlyLocation(init, i, location)
  {
    if i: nat :| OnlyLocation(init, i, location) {
      assert OnlyLocation(headers, i, location);
    }
    if i: nat :| OnlyLocation(headers, i, location) {
      assert OnlyLocation(init, i, location);
    }
  }

  lemma {:induction false} LocationsOne(headers: seq<Header>, location: string)
    ensures Locations(headers) == [location] <==> exists i: nat :: OnlyLocation(headers, i, location)
  {
    if headers != [] {
      var n := |headers| - 1;
      var init, last := headers[..n], headers[n];
      LocationsLast(headers);
      hide OnlyLocation, Locations;
      if last.name == "location" {
        LocationsNone(init);
        OnlyLast(headers, location);
        assert (forall j | 0 <= j < n :: headers[j].name != "location") <==>
               forall j | 0 <= j < |init| :: init[j].name != "location";
        OneAppended(Locations(init), last.value, location);
      } else {
        LocationsOne(init, location);
        OnlyEarlier(headers, init, location);
      }
    }
  }

  lemma OneAppended(a: seq<string>, x: string, y: string)
    ensures a + [x] == [y] <==> a == [] && x == y
  {
    if a + [x] == [y] {
      assert |a| == 0 && (a + [x])[0] == x;
    }
  }

  lemma LocationsLast(headers: seq<Header>)
    requires headers != []
    ensures var n := |headers| - 1;
            Locations(headers) ==
            Locations(headers[..n]) + (if headers[n].name == "location" then [headers[n].value] else [])
  {
  }

  /** What the fields of a response take on the wire. */
  function Printed(headers: seq<Header>): (s: string) {
    if headers == [] then ""
    else
      var last := headers[|headers| - 1];
      Printed(headers[..|headers| - 1]) + last.name + ": " + last.value + "\r\n"
  }

  lemma {:induction false} HeaderOctetsPrinted(headers: seq<Header>)
    ensures HeaderOctets(headers) == |Printed(headers)|
  {
    if headers != [] {
      HeaderOctetsPrinted(headers[..|headers| - 1]);
    }
  }

  /** A response within the bounds of the rule and the broker. */
  ghost predicate WithinBounds(rule: Rule, b: Bounds, r: Response) {
    |r.body| <= rule.maxResponseBody && |r.headers| <= b.maxHeaderCount && |Printed(r.headers)| <= b.maxHeaderBytes
  }

  /** The rule's own target. */
  predicate OnTarget(rule: Rule, u: Url) {
    && rule.tlsRequired && u.scheme == "https" && u.username == "" && u.password.None?
    && u.host == Some(rule.targetHost) && u.port == Some(443) && rule.pathPrefix <= u.path
  }

  /** The redirections that keep the meaning of the request. */
  predicate Safe(status: nat, verb: string) {
    || status == 307 || status == 308 || status == 303
    || ((status == 301 || status == 302) && (verb == "GET" || verb == "HEAD"))
  }

  /** The only location leads to the rule's target, on the same scheme, host and port. */
  ghost predicate LeadsOn(env: Env, rule: Rule, url: Url, headers: seq<Header>, i: nat, location: string) {
    && OnlyLocation(headers, i, location) && HopByHop.Visible(location)
    && var next := env.join(url, location);
    && next.Some? && OnTarget(rule, next.value)
    && next.value.scheme == url.scheme && next.value.host == url.host && next.value.port == url.port
  }

  /** A redirect is followed exactly when the response is within bounds, redirects are
      left and allowed, its only location is visible ASCII and leads to the rule's
      target on the same scheme, host and port, and its status is safe to follow. */
  lemma FollowedExactly(env: Env, rule: Rule, b: Bounds, turn: nat, verb: string, url: Url, body: string, r: Response)
    ensures Answer(env, rule, b, turn, verb, url, body, r).Continue? <==>
            && WithinBounds(rule, b, r) && turn != b.maxRedirects && rule.redirectPolicy.SameTarget?
            && Safe(r.status, verb)
            && exists i: nat, location :: LeadsOn(env, rule, url, r.headers, i, location)
  {
    HeaderOctetsPrinted(r.headers);
    hide HeaderOctets, Printed, Locations, HopByHop.Visible, OnlyLocation;
    var locations := Locations(r.headers);
    if |locations| == 1 {
      var location := locations[0];
      assert locations == [location];
      LocationsOne(r.headers, location);
      var i: nat :| OnlyLocation(r.headers, i, location);
      assert Answer(env, rule, b, turn, verb, url, body, r).Continue? ==>
             LeadsOn(env, rule, url, r.headers, i, location);
    }
    forall i: nat, location | LeadsOn(env, rule, url, r.headers, i, location) ensures locations == [location] {
      LocationsOne(r.headers, location);
    }
  }

  lemma RefusalMeans(rule: Rule, verb: string, url: Url, body: string)
    ensures ValidateRequest(rule, verb, url, body) != Some(InvalidState)
  {
  }

  /** At most one request for each redirect left and one more; every one obeys the
      rule; each is reached from the one before by an authorized redirect. */
  lemma {:induction false} FollowSends(env: Env, rule: Rule, b: Bounds, turn: nat, verb: string, url: Url, body: string)
    requires turn <= b.maxRedirects
    ensures var o := Follow(env, rule, b, turn, verb, url, body);
            && |o.sent| <= b.maxRedirects + 1 - turn
            && (forall i | 0 <= i < |o.sent| :: Allowed(rule, o.sent[i]))
            && (o.sent != [] ==> o.sent[0].verb == verb && o.sent[0].url == url && o.sent[0].body == body)
            && Chain(env, rule, turn, o.sent)
            && o.result != Failure(InvalidState)
    decreases b.maxRedirects - turn
  {
    RefusalMeans(rule, verb, url, body);
    hide ValidateRequest, Answer, ValidateUrl, SingleLocation, Semantics, IsRedirection;
    if env.send(turn).Some? {
      var r := env.send(turn).value;
      var t := Answer(env, rule, b, turn, verb, url, body, r);
      AnswerMeans(env, rule, b, turn, verb, url, body, r);
      if t.Continue? {
        FollowSends(env, rule, b, turn + 1, t.verb, t.url, t.body);
        var rest := Follow(env, rule, b, turn + 1, t.verb, t.url, t.body).sent;
        ChainCons(env, rule, turn, Exchange(verb, url, body, Some(r.status)), rest);
        hide Chain;
      }
    }
  }

  /** At most `maxRedirects` + 1 requests are sent, the first to the given URL and
      each later one along an authorized redirect; the error after the loop is
      never reached. */
  lemma AtMostOnePerRedirect(env: Env, rule: Rule, b: Bounds, verb: string, url: Url, body: string)
    ensures var o := Follow(env, rule, b, 0, verb, url, body);
            && |o.sent| <= b.maxRedirects + 1 && Chain(env, rule, 0, o.sent) && o.result != Failure(InvalidState)
            && (o.sent != [] ==> o.sent[0].verb == verb && o.sent[0].url == url && o.sent[0].body == body)
            && (rule.redirectPolicy.Deny? ==> |o.sent| <= 1)
  {
    hide Follow, Answer;
    FollowSends(env, rule, b, 0, verb, url, body);
    var sent := Follow(env, rule, b, 0, verb, url, body).sent;
    if |sent| > 1 {
      assert LinkAt(env, rule, 0, sent, 0);
    }
  }

  /** The secret only ever travels to the rule's own host: every URL sent to is
      `https` on port 443 of the target host, under the path prefix, without user
      name or password. */
  lemma SentToTargetOnly(env: Env, rule: Rule, b: Bounds, verb: string, url: Url, body: string, i: nat)
    requires i < |Follow(env, rule, b, 0, verb, url, body).sent|
    ensures var e := Follow(env, rule, b, 0, verb, url, body).sent[i];
            && e.url.scheme == "https" && e.url.host == Some(rule.targetHost) && e.url.port == Some(443)
            && e.url.username == "" && e.url.password.None?
            && rule.pathPrefix <= e.url.path && e.verb in rule.allowedMethods && |e.body| <= rule.maxRequestBody
  {
    FollowSends(env, rule, b, 0, verb, url, body);
    assert Allowed(rule, Follow(env, rule, b, 0, verb, url, body).sent[i]);
    hide Follow;
  }

  predicate SeeOther(sent: seq<Exchange>) {
    exists i | 0 <= i < |sent| :: sent[i].status == Some(303)
  }

  /** What the requests carry: the original method and body up to a 303; after
      one, an empty body, and GET unless the method was HEAD (section 15.4 of
      RFC 9110). */
  lemma {:induction false} CarriedAlong(env: Env, rule: Rule, sent: seq<Exchange>, i: nat)
    requires Chain(env, rule, 0, sent) && i < |sent|
    ensures if SeeOther(sent[..i])
            then sent[i].body == "" && sent[i].verb == (if sent[0].verb == "HEAD" then "HEAD" else "GET")
            else sent[i].body == sent[0].body && sent[i].verb == sent[0].verb
  {
    if i > 0 {
      CarriedAlong(env, rule, sent, i - 1);
      assert LinkAt(env, rule, 0, sent, i - 1);
      var e := sent[i - 1];
      SeeOtherAppend(sent[..i - 1], e);
      assert sent[..i] == sent[..i - 1] + [e];
      hide SeeOther;
    }
  }

  lemma SeeOtherAppend(sent: seq<Exchange>, e: Exchange)
    ensures SeeOther(sent + [e]) <==> SeeOther(sent) || e.status == Some(303)
  {
    var all := sent + [e];
    if SeeOther(sent) {
      var i :| 0 <= i < |sent| && sent[i].status == Some(303);
      assert all[i] == sent[i];
    }
    if e.status == Some(303) {
      assert all[|sent|] == e;
    }
  }

  lemma OriginalUntilSeeOther(env: Env, rule: Rule, b: Bounds, verb: string, url: Url, body: string, i: nat)
    requires i < |Follow(env, rule, b, 0, verb, url, body).sent|
    ensures var sent := Follow(env, rule, b, 0, verb, url, body).sent;
            if SeeOther(sent[..i])
            then sent[i].body == "" && sent[i].verb == (if verb == "HEAD" then "HEAD" else "GET")
            else sent[i].body == body && sent[i].verb == verb
  {
    FollowSends(env, rule, b, 0, verb, url, body);
    hide Follow;
    CarriedAlong(env, rule, Follow(env, rule, b, 0, verb, url, body).sent, i);
  }

  /** The response handed back answers the last request sent, is no redirect, and is
      within bounds. */
  lemma {:induction false} LastAnswerReturned(env: Env, rule: Rule, b: Bounds, turn: nat, verb: string, url: Url,
      body: string)
    requires turn <= b.maxRedirects && Follow(env, rule, b, turn, verb, url, body).result.Success?
    ensures var o := Follow(env, rule, b, turn, verb, url, body);
            && o.sent != [] && env.send(turn + |o.sent| - 1) == Some(o.result.value)
            && !IsRedirection(o.result.value.status) && WithinBounds(rule, b, o.result.value)
    decreases b.maxRedirects - turn
  {
    hide Answer, ValidateRequest, ValidateUrl, SingleLocation, Semantics, IsRedirection;
    var r := env.send(turn).value;
    AnswerMeans(env, rule, b, turn, verb, url, body, r);
    var t := Answer(env, rule, b, turn, verb, url, body, r);
    if t.Continue? {
      LastAnswerReturned(env, rule, b, turn + 1, t.verb, t.url, t.body);
    }
  }

  // ---- How far a run goes --------------------------------------------------

  /** A request the rule allows and the secret fits. */
  predicate Sendable(env: Env, rule: Rule, verb: string, url: Url, body: string) {
    && OnTarget(rule, url) && verb in rule.allowedMethods && |body| <= rule.maxRequestBody
    && env.injects(verb, url)
  }

  lemma SendableExactly(env: Env, rule: Rule, verb: string, url: Url, body: string)
    ensures Sendable(env, rule, verb, url, body) <==>
            ValidateRequest(rule, verb, url, body).None? && env.injects(verb, url)
  {
  }

  /** The request after this exchange, if its answer is followed. */
  ghost predicate Following(env: Env, rule: Rule, b: Bounds, turn: nat, e: Exchange, t: Turn) {
    env.send(turn).Some? && t.Continue? && Answer(env, rule, b, turn, e.verb, e.url, e.body, env.send(turn).value) == t
  }

  /** A run stops only where it must: the first request is sent exactly when it may be,
      and after the last one nothing that may be sent is to be followed. */
  lemma {:induction false} StopsExactly(env: Env, rule: Rule, b: Bounds, turn: nat, verb: string, url: Url,
                                        body: string)
    requires turn <= b.maxRedirects
    ensures var sent := Follow(env, rule, b, turn, verb, url, body).sent;
            && (sent != [] <==> Sendable(env, rule, verb, url, body))
            && (sent != [] ==>
                  forall t | Following(env, rule, b, turn + |sent| - 1, sent[|sent| - 1], t) ::
                    !Sendable(env, rule, t.verb, t.url, t.body))
    decreases b.maxRedirects - turn
  {
    SendableExactly(env, rule, verb, url, body);
    hide Answer, ValidateRequest, ValidateUrl, Sendable;
    if ValidateRequest(rule, verb, url, body).None? && env.injects(verb, url) && env.send(turn).Some? {
      var r := env.send(turn).value;
      var t := Answer(env, rule, b, turn, verb, url, body, r);
      AnswerMeans(env, rule, b, turn, verb, url, body, r);
      if t.Continue? {
        StopsExactly(env, rule, b, turn + 1, t.verb, t.url, t.body);
        var rest := Follow(env, rule, b, turn + 1, t.verb, t.url, t.body).sent;
        if rest != [] {
          assert ([Exchange(verb, url, body, Some(r.status))] + rest)[|rest|] == rest[|rest| - 1];
        }
      }
    }
  }
}
