# Sendbox, modelled in Dafny

A model of the concurrent, stateful and parsing parts of Sendbox, and proofs of
what they keep on every input and in every run. `dafny verify dfyconfig.toml`
checks the whole project.

| area | files |
|---|---|
| egress pinning: two brokers, one expiring cache, one budget, a policy that changes under them | PinProtocol, PinTimeline, PinSafety, PinRules, PinProgress, AuthorizationCache, DnsBudget, DnsLongest, DnsBursts, DnsTightness, Policy, PolicyRules, Resolution, Domain, Address, AddressClasses |
| credited terminal input: stdin pump, atomic gate, queues, orchestrator, writer, guest | TerminalInput, TerminalSafety, TerminalProgress |
| wire formats: HTTP/1.1 requests, CONNECT frames, DNS names | Http1, Http1Reader, Http1RoundTrip, Http1Exact, Numerals, HopByHop, ConnectCodec, DnsName, Utf8, Splitting |
| run bookkeeping: agent lifecycle, redirects, trace report, event queue | Lifecycle, LifecycleSafety, LifecyclePoints, LifecycleRun, Redirects, TraceReport, EventQueue |
| glob matching | Glob |

Concurrent protocols are step systems: a state, one function per atomic step, and
`Run` over any sequence of steps, so a theorem about `Run` is one about every
interleaving. A step that is not enabled changes nothing. Objects that the code
updates in place are classes, and loops are loops; each is proved against a
function, and the theorems are about those functions.

What comes from outside is a parameter: resolver answers, clock readings, socket
reads and failures, the outcome of every awaited call of a run, upstream
responses, URL parsing (`Limits.uri`, `Env.join`), and whether a secret can be
injected. Times are whole ticks.

## Where the code differs from what one would expect

- Glob: a pattern `*` that meets a literal `*` in the value is taken as that
  character (glob.rs, lines 12-13), so completeness fails for exactly the values
  and patterns named below.
- HTTP reader: octets after a request are refused only if a read that began in the
  header section brought them in, so the outcome can depend on how the transport
  splits the stream; the exact condition is `CanOvershoot`.
- CONNECT codec: the module comment calls host names ASCII, the decoder accepts any
  UTF-8; the encoder silently cuts a host name after 253 octets.
- Lifecycle: a guest that connects but lacks a required capability has not been
  stored yet, so cleanup does not release it. `initialize` has no release call, and
  the states `Stopping` and `Failed` are never entered.
- Event queue: events already taken by a collection are gone if a later poll of the
  same collection fails; nothing else loses an event.
- DNS budget: windows start at a query, and a refused query starts one like an
  admitted one, so more than a budget can be spent within one window's length. That
  is impossible exactly for windows of one tick, and for windows with room for one
  query whose first is never too long for them.
- DNS names: the visit budget counts pointers, so a name of 127 labels that can be
  read written out cannot be read compressed.

## Model

| member | source | states |
|---|---|---|
| `PinSafety.PinSafety` | crates/sendbox-egress/src/connect_broker.rs:512-745 | in every interleaving of DNS queries, CONNECTs, clock ticks and scope refreshes, each connection handed out is one the policy in force at that moment allows; a host name connection goes to an address pinned earlier for exactly the normalized name, by this request or live when it looked, and the pin goes back to an upstream answer for that name whose hops, record type and address class that same policy allows |
| `PinRules.NoRestrictedConnection` | crates/sendbox-egress/src/policy.rs:430-526 | no run connects to 0.0.0.0 or ::, into a blocked network, or into any of the loopback, private, link-local, multicast, unique-local and metadata blocks, listed as networks, outside an allowed network, however the address was named or spelled |
| `PinRules.ConnectionsObeyRules` | crates/sendbox-egress/src/policy.rs:339-526 | in every run each connected port is listed if ports are; a connection by name is for a canonical name that no blocked pattern covers and that an allowed or published one does, or names are allowed by default; one to an address is in an allowed or published network, or allowed by default |
| `PinRules.QueriesObeyRules` | crates/sendbox-egress/src/dns_broker.rs:182-271 | in every run each query sent upstream is for a canonical name within the length and label limits that the same name rule allows |
| `PinRules.PinsObeyRules` | crates/sendbox-egress/src/connect_broker.rs:698-745 | in every run each pin goes back to an answer whose CNAMEs and final name the name rule allows, and its TTL is that of a record of the answer, cut to the maximum |
| `PinRules.ScopesAreFresh` | crates/sendbox-egress/src/github_meta.rs:314-483 | in every run a published scope in force was published, and a response less than a day old brought or confirmed it |
| `AddressClasses.ClassifyByBlocks` | crates/sendbox-egress/src/address.rs:75-160 | the class of an address is that of the first of fifteen listed networks that holds its canonical form, and global exactly when none does |
| `PolicyRules.AddressPermittedExactly` | crates/sendbox-egress/src/policy.rs:385-457 | an address is permitted exactly when it is not unspecified, in no blocked network, and in no listed block unless in an allowed network |
| `PolicyRules.NameAllowedExactly` | crates/sendbox-egress/src/policy.rs:334-384 | a spelling is allowed exactly when it normalizes to a name that no blocked pattern covers and that an allowed or published pattern covers or the default allows |
| `PolicyRules.HostnameDecidedExactly` | crates/sendbox-egress/src/policy.rs:458-490 | a host name connection is allowed exactly when address, port and name rule all hold |
| `PolicyRules.DirectDecidedExactly` | crates/sendbox-egress/src/policy.rs:492-526 | a connection to an address is allowed exactly when address and port rule hold and its network is allowed, published, or allowed by default |
| `PinSafety.RepliesArePinned` | crates/sendbox-egress/src/dns_broker.rs:272-374 | every address in a DNS reply was pinned for the name by that same query before the reply, and each such pin is justified by the query's own answer |
| `PinSafety.SharedBudget` | crates/sendbox-egress/src/dns_broker.rs:182-271 | DNS and CONNECT share one budget: over any interval as long as the window the queries both send upstream stay within twice each maximum, every one is for an allowed name, every answer was paid for by a query of the same request for the same name, and there are no more answers than queries |
| `PinSafety.OneAnswerEach` | crates/sendbox-egress/src/connect_broker.rs:656-696 | in every run no request is answered twice, so the answers are at most the queries admitted |
| `PinTimeline.EveryRunAnswersOnce` | crates/sendbox-egress/src/connect_broker.rs:656-696 | in every interleaving a request that was answered has moved past asking, and no request is answered twice |
| `PinSafety.CacheBounded` | crates/sendbox-egress/src/authorization.rs:78-107 | in every run the shared cache stays within its capacity |
| `PinSafety.LookupUsable` | crates/sendbox-egress/src/authorization.rs:135-149 | every address a lookup returns was pinned under the same policy revision and is live at the lookup |
| `PinSafety.PinningKeeps` | crates/sendbox-egress/src/authorization.rs:78-107 | one cache write keeps the protocol invariant and makes the pin usable by the request that wrote it |
| `PinSafety.StepKeeps` | crates/sendbox-egress/src/connect_broker.rs:598-745 | every step of either broker, the clock and the scope refresh keeps the protocol invariant |
| `PinSafety.EveryRunKeeps` | crates/sendbox-egress/src/connect_broker.rs:512-745 | every reachable state satisfies the protocol invariant |
| `PinProgress.LivePinConnects` | crates/sendbox-egress/src/connect_broker.rs:598-655 | from every reachable state: a lookup that finds pins for an allowed name and port, the expected address among them if one is expected, connects to the expected or else the least of them, with no query upstream and no charge |
| `PinProgress.FreshNameConnects` | crates/sendbox-egress/src/connect_broker.rs:656-745 | from every reachable state: where the pins do not do, one admitted query whose answer holds any acceptable addresses, the expected one among them if one is expected, connects to the expected or else the least of them and charges exactly that query |
| `PinProgress.AllowedAddressConnects` | crates/sendbox-egress/src/connect_broker.rs:512-577 | from every reachable state, an address the policy allows directly is connected to |
| `PinProgress.DnsQueryReplied` | crates/sendbox-egress/src/dns_broker.rs:182-374 | from every reachable state, an allowed query that the budget admits, with an answer that passes validation, can be replied to with exactly the validated addresses for the charge of one query |
| `Policy.SpellingOfAddressIrrelevant` | crates/sendbox-egress/src/policy.rs:413-526 | an IPv4 address and its IPv4-mapped IPv6 spelling are decided alike |
| `Policy.RefreshKeepsRevisions` | crates/sendbox-egress/src/github_meta.rs:314-377 | across fetch, install, abandon and clear, a revision number never stands for two scopes |
| `Policy.CurrentIsInForce` | crates/sendbox-egress/src/github_meta.rs:419-483 | comparing revision numbers is enough: a genuine snapshot with the current number is the view in force |
| `Policy.ScopeIsFresh` | crates/sendbox-egress/src/github_meta.rs:314-483 | after any refresh steps, a scope in force was published and confirmed less than a day before |
| `Policy.PublishedTakesEffect` | crates/sendbox-egress/src/github_meta.rs:314-377 | a scope that is fetched and installed is in force for exactly a day from the fetch |
| `Policy.ConfirmedTakesEffect` | crates/sendbox-egress/src/github_meta.rs:314-377 | a confirmation of a scope held with an entity tag keeps it in force for a day from then; without one nothing changes |
| `Policy.ForgottenAtOnce` | crates/sendbox-egress/src/github_meta.rs:314-377 | an abandoned refresh or a clear takes the scope out of force at once |
| `Resolution.DnsPinsArePinnable` | crates/sendbox-egress/src/dns_broker.rs:272-344 | what the DNS path pins is an address of the answer, of the queried type, permitted, behind allowed hops, with a TTL within its record's that is some record's, cut to the policy's |
| `Resolution.ConnectPinsArePinnable` | crates/sendbox-egress/src/connect_broker.rs:698-745 | the same for every address a fresh CONNECT resolution keeps |
| `Resolution.DnsAnsweredExactly` | crates/sendbox-egress/src/dns_broker.rs:272-329 | a DNS query is answered exactly when every hop and every address of the asked type is allowed, and then with all of them up to the record limit |
| `Resolution.DnsAnswerInOrder` | crates/sendbox-egress/src/dns_broker.rs:289-344 | the answer is the canonical addresses of the asked type in answer order up to the record limit, with the least TTL among them, cut to the policy maximum |
| `Resolution.ConnectKeepsSmallest` | crates/sendbox-egress/src/connect_broker.rs:698-745 | a fresh CONNECT resolution misses an acceptable address only for smaller ones that fill the record limit |
| `Resolution.SortDedupMeaning` | crates/sendbox-egress/src/connect_broker.rs:698-745 | sorting and deduplicating gives strictly increasing addresses, the same set, and for each address its first record |
| `Resolution.CheckHops` | crates/sendbox-egress/src/dns_broker.rs:272-289 | the hop loop fails exactly on the first name that is not allowed, with that name's verdict |
| `Resolution.ValidateDnsAnswer` | crates/sendbox-egress/src/dns_broker.rs:272-344 | the hop loop, canonicalization, filter and truncation in their order refine `DnsValidate`, which `DnsAnsweredExactly` characterizes |
| `Resolution.CollectValidated` | crates/sendbox-egress/src/connect_broker.rs:698-745 | push, stable sort, dedup and truncate refine `ConnectValidate`, which `ConnectKeepsSmallest` characterizes |
| `Resolution.SortThenDrop` | crates/sendbox-egress/src/connect_broker.rs:725-726 | a stable sort by address followed by dropping equal neighbours is insertion of each new address in order |
| `Resolution.DedupByAddress` | crates/sendbox-egress/src/connect_broker.rs:726 | the pass over the sorted list keeps the first of each run of equal addresses |
| `Resolution.BuildAnswers` | crates/sendbox-egress/src/dns_broker.rs:346-374 | the answer section links the question through its CNAMEs to the final owner, then lists exactly the addresses |
| `AuthorizationCache.CacheRefines` | crates/sendbox-egress/src/authorization.rs:78-160 | after any operations the cache is within capacity and a sub-map of the unbounded last-write-wins map |
| `AuthorizationCache.ExactUntilEviction` | crates/sendbox-egress/src/authorization.rs:78-149 | until something is evicted its live part is the unbounded map's live part, at every later time |
| `AuthorizationCache.LookupExactly` | crates/sendbox-egress/src/authorization.rs:78-149 | a lookup shows only addresses whose last write since the last wipe was under that revision and has not run out, and until something is evicted all of them |
| `AuthorizationCache.EvictionExactly` | crates/sendbox-egress/src/authorization.rs:78-107 | something is evicted exactly when the unbounded map's live part had no room at some write since the last wipe |
| `AuthorizationCache.EvictionOrder` | crates/sendbox-egress/src/authorization.rs:78-107 | an eviction removes one entry, expiring no later than every entry that stays, and of those expiring together the least key |
| `AuthorizationCache.AuthorizationCache.AuthorizeForRevision` | crates/sendbox-egress/src/authorization.rs:78-107 | prune, evict and insert in place refine `Authorize`, so the cache keeps capacity and sub-map whatever the calls |
| `AuthorizationCache.AuthorizationCache.FindVictim` | crates/sendbox-egress/src/authorization.rs:87-98 | the minimum search returns the one entry that precedes all others in eviction order |
| `AuthorizationCache.AuthorizationCache.IsAuthorized` | crates/sendbox-egress/src/authorization.rs:109-128 | true exactly for a live entry of revision zero; an expired one is removed |
| `AuthorizationCache.AuthorizationCache.AuthorizedAddressesForRevision` | crates/sendbox-egress/src/authorization.rs:135-149 | the sorted, duplicate-free live addresses of exactly that name and revision |
| `DnsBudget.SlidingBound` | crates/sendbox-egress/src/dns_budget.rs:181-220 | for every call sequence in time order, any half-open interval as long as the window admits at most twice each budget |
| `DnsBudget.WithinUntilRoll` | crates/sendbox-egress/src/dns_budget.rs:181-220 | one budget holds over such an interval unless a window rolls inside it after a query was admitted there |
| `DnsBursts.SpendableExactly` | crates/sendbox-egress/src/dns_budget.rs:181-220 | exactly the name sequences that fit one window, or whose first part fits a window behind the query that opened it and whose rest fits the next, can be admitted within one window's length; a refused opener takes no room |
| `DnsTightness.MostQueriesExactly` | crates/sendbox-egress/src/dns_budget.rs:181-220 | for windows longer than a tick the most queries are twice the capacity if some name is too long for an empty window, and one less if none is; the bound is reached, and the octets are bounded alike |
| `DnsTightness.DistinctTwice` | crates/sendbox-egress/src/dns_budget.rs:181-220 | twice the distinct names and twice the distinct labels of one window are reached, by names of one letter |
| `DnsLongest.LongestExactly` | crates/sendbox-egress/src/dns_budget.rs:159-178 | the longest name that passes the structural check has the least of the name limit and labels times (label limit + 1) minus 1 octets, made odd if labels have one octet |
| `DnsTightness.OneBudgetExactly` | crates/sendbox-egress/src/dns_budget.rs:181-220 | one budget holds over every such interval of every run exactly when windows are one tick long, or have room for one query only and the longest name the limits admit fits an empty window |
| `DnsBudget.GuardIsFold` | crates/sendbox-egress/src/dns_budget.rs:83-109 | the guard's state is always the fold over the queries admitted since the last reset, and that fold is within every budget; labels are at most names, names at most queries |
| `DnsBudget.LastAdmittedExactly` | crates/sendbox-egress/src/dns_budget.rs:181-220 | a query is admitted exactly when, with those admitted since the window rolled, it stays within all four budgets and the counters hold |
| `DnsBudget.RejectionIsFree` | crates/sendbox-egress/src/dns_budget.rs:181-220 | a query refused within a window is as if never asked: every later verdict and the guard at the end are the same |
| `DnsTightness.OverflowExactly` | crates/sendbox-egress/src/dns_budget.rs:181-220 | some run overflows a counter exactly when the query maximum is the largest 32-bit integer and the octet maximum is larger still |
| `DnsBudget.DnsGuard.AdmitQuery` | crates/sendbox-egress/src/dns_budget.rs:181-220 | updating the counters in place refines `Admit`: the same verdict, and a refusal leaves the window rolled and otherwise unchanged |
| `DnsBudget.DnsGuard.CheckStructure` | crates/sendbox-egress/src/dns_budget.rs:159-178 | the label loop refuses by name length, then by the first long label, then by label count, and by nothing else |
| `TerminalSafety.CreditsConserved` | crates/sendbox-cli/src/terminal.rs:304-520 | in every reachable state session credits are the gate's, plus inputs held by the pump, queued or in the orchestrator's hands, plus grants on their way, plus inputs given up by an actor that stopped; so the gate never refuses an accepted grant, `consume` never lacks credit, and the command queue is never full |
| `TerminalSafety.HonestGuestNeverRefused` | crates/sendbox-agent/src/protocol.rs:322-372 | if the guest returns credit only for inputs it has received, the session never refuses a grant and the writer queue is never full, end of file included |
| `TerminalSafety.OvergrantRefusedExactly` | crates/sendbox-agent/src/protocol.rs:329-338 | in every run, a grant of a valid size is refused by the session exactly when all that was granted up to it exceeds the window plus the inputs sent |
| `TerminalSafety.WireFollowsPump` | crates/sendbox-agent/src/protocol.rs:400-473 | frames written are a prefix of those queued, taken and produced, in order, with end of file last; while every actor runs none is missing in between |
| `TerminalSafety.NoLostWakeUp` | crates/sendbox-cli/src/terminal.rs:310-374 | a pump that waits on the wake pipe alone has no credit, a byte in the pipe, or a granter about to write one; after shutdown is signalled a waiting pump is woken and stops |
| `TerminalProgress.EverythingArrives` | crates/sendbox-cli/src/terminal.rs:452-520 | from every reachable state in which the orchestrator runs, the writer is up and nobody asked the pump to stop, the run can go on so that every octet stdin has delivered, and its end, is on the wire in order |
| `TerminalProgress.DeliveredIsProduced` | crates/sendbox-cli/src/terminal.rs:452-520 | in every run the chunks stdin delivered, and its end, are exactly what the pump produced and the chunk it has in hand |
| `TerminalProgress.WireFollowsStdin` | crates/sendbox-agent/src/protocol.rs:400-473 | in every run, whatever stops, what is on the wire is a prefix of what stdin delivered |
| `TerminalProgress.EveryRunOpen` | crates/sendbox-agent/src/orchestrator.rs:431-458 | in every run the command queue closes only with the orchestrator, the orchestrator stops listening only when the pump has stopped and nothing is left, and a pump that was not told to stop has dropped nothing |
| `TerminalProgress.GrantArrives` | crates/sendbox-cli/src/terminal.rs:310-345 | from every run in which the orchestrator runs, the writer is up and nobody asked the pump to stop, the next grant in flight, if the window allows it, can be in the gate on top of everything accepted before, with the pump not waiting for the wake pipe alone |
| `TerminalSafety.StepKeeps` | crates/sendbox-agent/src/orchestrator.rs:431-458 | every step of pump, orchestrator, writer, guest and stopper keeps all of the above |
| `TerminalSafety.EveryRunKeeps` | crates/sendbox-cli/src/terminal.rs:452-520 | every reachable state satisfies the credit, order, window and wake-up invariant |
| `TerminalInput.SessionInput.OnCredit` | crates/sendbox-agent/src/protocol.rs:513-532 | the credit branch gives the verdict of the credit step and leaves the counter of the state after it, so the credit theorems are about this object |
| `TerminalInput.SessionInput.SendTerminal` | crates/sendbox-agent/src/protocol.rs:620-672 | `send_terminal` ends the run for the reason of the send step or queues the command, with the counter and end flag of the state after it; a credit consumed for a command that could not be queued is put back, and that never fails |
| `Glob.GlobMatches` | crates/sendbox-core/src/glob.rs:2-36 | the single-backtrack loop accepts exactly what its own reading of `*` accepts; it terminates by star position and indices |
| `Glob.TrailingStars` | crates/sendbox-core/src/glob.rs:32-35 | the last loop accepts exactly a rest made of stars |
| `Glob.Sound` | crates/sendbox-core/src/glob.rs:2-36 | whatever is accepted matches declaratively: `?` one character, `*` any run |
| `Glob.ExactForValue` | crates/sendbox-core/src/glob.rs:2-36 | the code agrees with the declarative semantics on every pattern exactly for the values that contain no `*` |
| `Glob.ExactForPattern` | crates/sendbox-core/src/glob.rs:2-36 | and on every value exactly for the patterns `*` and those without `*` |
| `Glob.MisreadIsRejected` | crates/sendbox-core/src/glob.rs:2-36 | for every value with a `*` a pattern that matches it and is rejected |
| `Domain.NormalizeFixpoints` | crates/sendbox-egress/src/domain.rs:31-58 | normalization returns names in normal form, and leaves those alone |
| `Domain.SpellingIrrelevant` | crates/sendbox-egress/src/domain.rs:31-58 | case, surrounding white space and one root dot do not matter |
| `Domain.NormalizeExactly` | crates/sendbox-egress/src/domain.rs:31-58 | normalization accepts exactly the spellings of canonical names: any letter case, white space around, at most one root dot; and returns that name |
| `Domain.WireLengthFits` | crates/sendbox-egress/src/domain.rs:31-58 | a normalized name fits the limits of section 2.3.4 of RFC 1035 |
| `Domain.WildcardMeansStrictSubdomain` | crates/sendbox-egress/src/domain.rs:78-90 | `*.s` matches a canonical name exactly when its labels are a non-empty list followed by the labels of s |
| `Domain.PatternFixpoints` | crates/sendbox-egress/src/domain.rs:61-74 | pattern normalization is idempotent |
| `Address.CanonicalForm` | crates/sendbox-egress/src/address.rs:77-173 | the canonical form is a fixed point with the same class, and is shared exactly by an address and its mapped form |
| `Http1Reader.CutMattersExactly` | crates/sendbox-credentials/src/http1.rs:39-106 | the outcome is the same for every way of splitting the stream into reads exactly when no octet follows the request within reach of a read that begins in the header section |
| `Http1Reader.ReadOutcome` | crates/sendbox-credentials/src/http1.rs:39-106 | every split gives the outcome that the stream alone fixes, except that octets after the request may be noticed |
| `Http1Reader.AcceptedIsPrefix` | crates/sendbox-credentials/src/http1.rs:66-106 | every accepted request is the parse of the prefix of length header end + 4 + Content-Length, and its body is the octets after the header section; `Numerals.ContentLengthExactly` says which number that is |
| `Http1Exact.RequestsAreRead` | crates/sendbox-credentials/src/http1.rs:39-106 | a request the parser accepts, with its header section within the limit, is read as that request however the transport cuts it |
| `Http1Exact.ReadStands` | crates/sendbox-credentials/src/http1.rs:39-106 | what the reader accepts begins with a text that stands for the request it returns |
| `Http1Reader.FinalParseAccepts` | crates/sendbox-credentials/src/http1.rs:100-152 | the final parse never rejects what the incremental stage accepted |
| `Http1Reader.HeaderEnds` | crates/sendbox-credentials/src/http1.rs:45-64 | with a header end in reach the header loop stops after it, less than a chunk too far |
| `Http1Reader.HeaderNeverEnds` | crates/sendbox-credentials/src/http1.rs:45-64 | without one it fails, as too long or as incomplete, by the length of the stream alone |
| `Http1Reader.ReadRequest` | crates/sendbox-credentials/src/http1.rs:39-106 | for any split the growing buffer and its two loops return `Read`, the function all reader laws are about |
| `Http1Reader.ReadHeaders` | crates/sendbox-credentials/src/http1.rs:45-64 | the header loop holds a prefix of the stream, and stops or fails as `HeaderBytes` says |
| `Http1Reader.ReadBody` | crates/sendbox-credentials/src/http1.rs:88-99 | the body loop ends with the announced prefix, or says that the stream is shorter |
| `Http1Reader.Transport.Read` | crates/sendbox-credentials/src/http1.rs:54-63 | one read delivers the next octets, at least one unless the stream is over |
| `Http1RoundTrip.WellFormedExactly` | crates/sendbox-credentials/src/http1.rs:125-271 | the parser's results are exactly the well-formed requests, and printing one gives a text that stands for it |
| `Http1Exact.ParseExactly` | crates/sendbox-credentials/src/http1.rs:125-271 | a text is accepted, and as this request, exactly when the request is well formed and the text is its request line, one line for each field with the name in any case and blanks around the value, an empty line, and the body |
| `Http1Exact.BodyAsDeclared` | crates/sendbox-credentials/src/http1.rs:125-152 | the body of an accepted request is as long as the number its Content-Length denotes, and empty without one |
| `Numerals.ContentLengthExactly` | crates/sendbox-credentials/src/http1.rs:304-316 | a Content-Length is accepted as n exactly when it is the decimal numeral of n behind any zeros and n fits 64 bits; larger numerals are too large, and nothing else is a number |
| `Http1Exact.TokenCharExactly` | crates/sendbox-credentials/src/http1.rs:186-190 | token characters are the visible ASCII characters other than the delimiters of section 5.6.2 of RFC 9110 |
| `Http1Exact.ControlExactly` | crates/sendbox-credentials/src/http1.rs:273-283 | a target is refused for a control character exactly when one of the characters its octets encode is one |
| `Utf8.ValidExactly` | crates/sendbox-credentials/src/http1.rs:179-181 | the octet strings accepted as UTF-8 are exactly the encodings of character sequences |
| `Http1RoundTrip.PrintParse` | crates/sendbox-credentials/src/http1.rs:125-271 | parsing what was printed gives the request back |
| `Http1RoundTrip.ParsedIsWellFormed` | crates/sendbox-credentials/src/http1.rs:154-291 | whatever is accepted has one Host, at most one Content-Length that is a numeral and equals the body's length, no Transfer-Encoding, lower-case token names, trimmed values and a safe origin-form target, within the limits |
| `Http1RoundTrip.HeadEnds` | crates/sendbox-credentials/src/http1.rs:334-338 | no CRLFCRLF occurs before the real header end |
| `Http1RoundTrip.LinesAlwaysEndInCrlf` | crates/sendbox-credentials/src/http1.rs:159-172 | after the check for bare line feeds, stripping the carriage return off a line never fails |
| `Http1.ParseHeaderLines` | crates/sendbox-credentials/src/http1.rs:208-256 | the loop with its Host counter and optional length refines the fold over header lines, error by error |
| `Http1.TrimOptionalWhitespace` | crates/sendbox-credentials/src/http1.rs:318-332 | the two slice loops remove exactly the blanks at both ends |
| `Http1RoundTrip.TrimExactly` | crates/sendbox-credentials/src/http1.rs:318-332 | the trimmed value is the one text without blanks at its ends that, between blanks, is the original |
| `Http1.FindHeaderEnd` | crates/sendbox-credentials/src/http1.rs:334-338 | the first position of the header end, or none anywhere |
| `HopByHop.StripKeepsExactly` | crates/sendbox-credentials/src/http1.rs:340-380 | a field stays exactly when its name is none of the eleven listed ones and no Connection field lists it |
| `HopByHop.StripIdempotent` | crates/sendbox-credentials/src/http1.rs:340-380 | stripping twice is stripping once |
| `HopByHop.KeepOnlySelects` | crates/sendbox-credentials/src/http1.rs:355-364 | the fields that stay keep their order and multiplicity |
| `HopByHop.StripHopByHop` | crates/sendbox-credentials/src/http1.rs:340-365 | collecting the Connection-named fields and filtering refine `Strip` |
| `ConnectCodec.RoundTrip` | crates/sendbox-egress/src/connect_proto.rs:119-240 | decoding the encoding of a request, with any octets after it, gives the request with canonical addresses and exactly those octets |
| `ConnectCodec.RoundTripExactly` | crates/sendbox-egress/src/connect_proto.rs:119-146 | the round trip holds exactly for IP targets and host names of 1 to 253 octets |
| `ConnectCodec.TruncatedIsEof` | crates/sendbox-egress/src/connect_proto.rs:161-240 | a frame cut short at any octet is reported as an unexpected end |
| `ConnectCodec.AcceptedIsEncoding` | crates/sendbox-egress/src/connect_proto.rs:191-240 | before addresses are rewritten, a frame is accepted exactly when it is the encoding of the request read from it |
| `ConnectCodec.DecodeCanonicalizes` | crates/sendbox-egress/src/connect_proto.rs:161-185 | canonical form is the only thing decoding changes |
| `ConnectCodec.SelfDelimiting` | crates/sendbox-egress/src/connect_proto.rs:119-240 | encodings are prefix-free and injective, and two requests decode alike exactly when their canonical forms agree |
| `ConnectCodec.EncodeRequest` | crates/sendbox-egress/src/connect_proto.rs:119-159 | appending field by field gives `Encode` |
| `ConnectCodec.LayoutExactly` | crates/sendbox-egress/src/connect_proto.rs:119-159 | the encoding is the one string with version 1, protocol 1 or 2, the port high octet first, target kind 1 with length and host or 2 with address version 4 or 6, and the expected address behind flag 0 or 1 |
| `ConnectCodec.Reader.DecodeRequest` | crates/sendbox-egress/src/connect_proto.rs:191-240 | reading field by field gives `Decode` of what is left, and leaves the reader exactly after the frame |
| `ConnectCodec.Reader.TakeIp` | crates/sendbox-egress/src/connect_proto.rs:168-185 | consumes one address, puts it in canonical form, or fails as `ReadIp` does |
| `ConnectCodec.Reader.TakeTarget` | crates/sendbox-egress/src/connect_proto.rs:204-224 | consumes one target, bounds and UTF-8 checks included, or fails as `ReadTarget` does |
| `LifecycleSafety.LifecycleForward` | crates/sendbox-agent/src/orchestrator.rs:134-394 | whichever points fail, the recorded states are a strictly advancing path of permitted transitions that never enters `Stopping` or `Failed`; no transition is refused and no `expect` fails |
| `LifecyclePoints.PointsMet` | crates/sendbox-agent/src/orchestrator.rs:134-394 | a run meets exactly the listed points of its plan, every secret and each requested report among them, in order, up to and including the first that fails, and all of them when it succeeds |
| `LifecyclePoints.CompletedStates` | crates/sendbox-agent/src/orchestrator.rs:134-177 | a run that reports success has recorded exactly the eleven states from `Planned` to `Completed`, in order |
| `LifecyclePoints.OutcomeExactly` | crates/sendbox-agent/src/orchestrator.rs:152-176 | the primary error is reported exactly when a point of the plan failed, the cleanup error exactly when none did but cleanup had failures, success otherwise |
| `LifecycleSafety.ReleasedExactlyOnce` | crates/sendbox-agent/src/orchestrator.rs:476-541 | each resource the context stored gets exactly one release call, one not stored gets none, and nothing is acquired twice |
| `LifecycleSafety.ReleasedInOrder` | crates/sendbox-agent/src/orchestrator.rs:476-541 | release calls come last, in the order execution, guest, channel, stop, runtime cleanup |
| `LifecycleSafety.GuestReleasedExactly` | crates/sendbox-agent/src/orchestrator.rs:300-328 | a guest that connected is released exactly when it offered the required capabilities |
| `LifecycleSafety.UnreleasedGuest` | crates/sendbox-agent/src/orchestrator.rs:319-327 | a run in which a connected guest is never released |
| `LifecycleSafety.SuccessExactly` | crates/sendbox-agent/src/orchestrator.rs:152-176 | success is reported exactly when every point met was passed, the release calls included, and the runtime's cleanup report is clean |
| `LifecycleSafety.PrimaryEnds` | crates/sendbox-agent/src/orchestrator.rs:179-394 | a primary run ends at the point it could not pass, holding exactly what was acquired before it |
| `LifecycleSafety.HeldExactly` | crates/sendbox-agent/src/orchestrator.rs:179-394 | a resource is held exactly when its point was passed |
| `LifecycleRun.RunPrimary` | crates/sendbox-agent/src/orchestrator.rs:179-394 | the await sequence with its early returns, transitions and stores leaves the context, the points met and the verdict of `RunFrom` |
| `LifecycleRun.Cleanup` | crates/sendbox-agent/src/orchestrator.rs:476-541 | enters `Cleaning` where permitted, then makes exactly the release calls of what is stored, in order, and lists their failures |
| `LifecycleRun.Release` | crates/sendbox-agent/src/orchestrator.rs:530-538 | one release call; a cleanup report adds its failures, or one entry if steps remain |
| `LifecycleRun.RunAgent` | crates/sendbox-agent/src/orchestrator.rs:134-177 | the clock and the boundary are checked before there is anything to clean up; the outcome, the cleanup failures and all points met are those of `Run`, which the lifecycle theorems are about |
| `LifecycleRun.RunContext.Transition` | crates/sendbox-agent/src/orchestrator.rs:575-585 | moves exactly when permitted, and records the state |
| `Redirects.AtMostOnePerRedirect` | crates/sendbox-credentials/src/broker.rs:333-407 | at most max_redirects + 1 requests are sent; each after the first goes to the only location of a redirecting answer, resolved against the URL before, on the same scheme, host and port, with the method and body the status prescribes; the error after the loop is unreachable; under a deny policy there is one request at most |
| `Redirects.FollowedExactly` | crates/sendbox-credentials/src/broker.rs:364-473 | an answer is followed exactly when it is within bounds, redirects are left and allowed, its only location leads to the rule's target on the same scheme, host and port, and its status is 307, 308, 303, or 301 or 302 for GET or HEAD |
| `Redirects.StopsExactly` | crates/sendbox-credentials/src/broker.rs:333-407 | the first request is sent exactly when the rule allows it and the secret fits, and a run stops only where no request that may be sent is to be followed |
| `Redirects.SentToTargetOnly` | crates/sendbox-secrets/src/credential.rs:293-334 | every request goes by https to port 443 of the rule's host, without user name or password, under its path prefix, with an allowed method and body size |
| `Redirects.OriginalUntilSeeOther` | crates/sendbox-credentials/src/broker.rs:450-473 | method and body are the originals up to a 303; after one the body is empty and the method GET, or HEAD if it was HEAD |
| `Redirects.LastAnswerReturned` | crates/sendbox-credentials/src/broker.rs:364-389 | the response handed back answers the last request sent, is no redirect, and is within the bounds on body, fields and their octets |
| `Redirects.ForwardWithRedirects` | crates/sendbox-credentials/src/broker.rs:333-407 | the loop over mutable method, body and URL returns the result and the requests of `Follow` |
| `DnsName.DecodesExactly` | test-fixtures/dns-cold-start/probe.py:161-181 | decoding succeeds exactly on names of at most 127 items before the end, in as many steps plus one, and gives their labels and the offset after the name; visited offsets never stop a name that ends |
| `DnsName.PlainRoundTrip` | test-fixtures/dns-cold-start/probe.py:161-181 | the plain encoding of a label list, wherever it stands, decodes to it exactly when there are at most 127 labels |
| `DnsName.CompressionPreserves` | test-fixtures/dns-cold-start/probe.py:161-181 | replacing a suffix by a pointer to where it stands keeps the decoded labels, with the name ending after the pointer, exactly when the pointer still fits the visit budget; otherwise the name is refused, though it can be read written out |
| `DnsName.ReadIsWritten` | test-fixtures/dns-cold-start/probe.py:161-181 | every name that is read is written as labels and an end, or as labels and a pointer to a name that is read too, and is exactly those labels |
| `DnsName.LongestNameCannotPoint` | test-fixtures/dns-cold-start/probe.py:161-181 | a list of up to 127 labels can be read written out, and compressed with the pointer put anywhere exactly when it has fewer than 127 |
| `DnsName.WalkIsName` | test-fixtures/dns-cold-start/probe.py:161-181 | a successful walk of some number of steps, at most 128, is a name of one item less before its end |
| `DnsName.ReadName` | test-fixtures/dns-cold-start/probe.py:161-181 | the loop with its visited set and saved end returns the lower-case dotted name and end offset of `Walk`; on every byte string it ends within 128 rounds, and a name takes as many rounds as `Walk` counts steps |
| `DnsName.TextExactly` | test-fixtures/dns-cold-start/probe.py:173-175 | the text is the labels with dots between, each octet as it was but for `A` to `Z`, which move up by 32; where no label holds a dot, splitting it gives them back |
| `TraceReport.ReportIsExact` | crates/sendbox-bpf/src/report.rs:80-117 | after any calls: observed is samples plus sampled out, counts plus uncounted are the syscall events, samples are the first 256 events taken, each counter is its id's exact number of calls, and an id has none only when all 1024 are taken |
| `TraceReport.SampleExactly` | crates/sendbox-bpf/src/report.rs:80-99 | a sample carries the time, process and thread group of its event, and the call number exactly for a system call |
| `TraceReport.RecordKeeps` | crates/sendbox-bpf/src/report.rs:80-117 | `record` fails only for an MCP payload or when the observed counter is full, and then changes nothing |
| `TraceReport.RunsValidate` | crates/sendbox-bpf/src/report.rs:119-145 | validation finds no fault in the accounts of any recorded report |
| `TraceReport.ValidateAccounts` | crates/sendbox-bpf/src/report.rs:124-145 | the overflow-checked sum in any key order finds exactly the first account error |
| `TraceReport.AccountsExactly` | crates/sendbox-bpf/src/report.rs:124-145 | a report is accepted exactly when samples and counters are within bounds, observed is samples plus sampled out, and no more calls are counted than events observed |
| `TraceReport.Recorder.RecordEvent` | crates/sendbox-bpf/src/report.rs:80-117 | the in-place updates, partial ones before an error included, are those of `Record` |
| `EventQueue.QueueConserved` | crates/sendbox-bpf/src/loader.rs:142-203 | what was handed out, in order, followed by the queue is what was queued, exactly when no collection has its first failing poll after events were taken and before it was full; queued plus dropped is received |
| `EventQueue.FailedPollLoses` | crates/sendbox-bpf/src/loader.rs:182-202 | for every queue that starts with an event and every room beyond it, a failing second poll is such a case |
| `EventQueue.LostExactly` | crates/sendbox-bpf/src/loader.rs:174-203 | a collection loses something exactly in that case, and then exactly the events it had taken, and it reports the failure |
| `EventQueue.ReliablePollsLoseNothing` | crates/sendbox-bpf/src/loader.rs:174-203 | a run whose polls all succeed loses nothing |
| `EventQueue.HandedOut` | crates/sendbox-bpf/src/loader.rs:174-203 | a caller gets events only, within the limit, or one error with nothing else taken |
| `EventQueue.DrainKeepsOrder` | crates/sendbox-bpf/src/loader.rs:318-335 | draining takes events in order up to the next error, the limit or the end of the queue and no less, and an error exactly when it comes first and no event is in hand |
| `EventQueue.DrainEvents` | crates/sendbox-bpf/src/loader.rs:318-335 | popping and pushing back at the front refine `Drain`, which `DrainKeepsOrder` describes |
| `EventQueue.CollectTakesAll` | crates/sendbox-bpf/src/loader.rs:174-203 | with polls that succeed a collection returns the longest run of events up to the limit from what was queued and what arrived, or the error that came first; the rest stays queued in order, and unless full it goes on to the last poll |
| `EventQueue.DroppedExactly` | crates/sendbox-bpf/src/loader.rs:142-158 | a record is dropped exactly when 4096 queued ones have neither been handed out nor lost |
| `EventQueue.EventStream.CollectEvents` | crates/sendbox-bpf/src/loader.rs:174-203 | polling and draining until full or out of time leave the queue and return the outcome of `Collect` |
| `EventQueue.EventStream.OnRecord` | crates/sendbox-bpf/src/loader.rs:142-158 | one record is queued or counted as dropped, and counted if it did not decode |

## Left out

- Sockets, TLS, task scheduling, timeouts as real time, and I/O errors beyond the outcomes named above.
- The SOCKS5 and HTTP proxy front ends, the forwarding resolver, connection permits and origin reservations: a request may stop at any step of the pin protocol, which covers their refusals.
- PinSafety.SharedBudget: assumes that the times passed to the guard are in order, because the brokers read the clock before taking the guard's lock; the other pin theorems do not assume it.
- DnsTightness.DistinctTwice: speaks of up to 13 names in each window, as many as there are letters for; for other names `DnsBursts.SpendableExactly` says what can be spent.
- AuthorizationCache.ExactUntilEviction: speaks of operations in time order, because a write reads the clock before taking the lock; `CacheRefines` does not assume it.
- Whether `capacity_for` is large enough to avoid evicting live pins: the code does not promise it.
- TerminalSafety.NoLostWakeUp: takes the wake write at shutdown to succeed, as the code ignores its result; a failed wake write on a grant is modelled and ends the run.
- Terminal resizes, which travel on a channel of their own, and sessions without flow control, which use no credit.
- LifecycleRun.RunPrimary: `monitor` is one point that passes or fails; its event loop is part of the terminal input model, and fetching a package report inside it is not modelled.
- Http1.ParseHeaderLines: the URI library's verdict on a target is a parameter, and method, header name and header value syntax follow section 5.6.2 and section 5.5 of RFC 9110 as the `http` crate implements them, with its 65535 octet limit on names.
- Redirects.ForwardWithRedirects: the injected secret itself, the other fields sent along (`HopByHop` says which), audit events and total timeouts are not modelled.
- TraceReport.ValidateAccounts: the schema, session, sample field and encoded size checks of `validate` are independent of the accounts and left out.
- DnsName.ReadName: the record loop of `dns_header` around it is not modelled.
- Configuration validation, presets, package and secret commands, cryptography, serialization, the BPF program and process control: flat checks and foreign calls that would only add easy members.
