# Verification of the MITRITY admission adapter

This project models the core of the Go admission adapter and proves what it promises. The adapter asks a
governance edge on the same machine before every tool call of an agent: it serializes and hashes the agent's
governed configuration, reports that to the edge, asks the edge for a decision on each call, and runs the call
only on an allow, with the input the edge returned. Three parts are modelled.

**The canonical serializer** (`Lexicographic`, `Unicode`, `Ordering`, `Literal`, `Decimal`, `Json`, `Canonical`, `Decoder`).
`Json` holds JSON values, their canonical text, and a strict reader for it. The two are proved to undo each
other, so the reader accepts exactly what the printer writes; it shares the table of escapes with the printer.
`Decoder` is an independent witness: a reader of JSON in general, with white space, any escapes and members in
any order, which finds in every serialization the value it stands for. `Canonical` holds
the Go values with their representations (`int`, `float64`, `json.Number`, `[]string`, `[]any`, maps), the JSON
value each denotes, and the serializer as the source has it: a shared buffer, loops, and an in-place sort of
members that were collected in arbitrary map order. `Ordering` keeps the code-unit order of section 3.2.3 of
RFC 8785 apart from the byte order Go's string sort uses, and shows that a set of names has one listing in each.

**The admission protocol** (`Config`, `Protocol`, `Admission`, `Guarantees`, `Edge`, `Loopback`). A `World` fixes,
attempt by attempt, everything the client can observe: the state of its context before and after, the
token file, and how the round trip ended (a transport error, an oversized body, or any status, version
header and body). Every theorem is for all worlds. The methods of `Client` and `FakeEdge` change state as the source
does; each is proved equal to a run defined as a function, and the guarantees are proved about those runs.
`Edge` is the well-behaved edge of the repository's own test kit; `Loopback` is address parsing.

**The governor** (`Governance`, `Governor`, `Interleaving`, `Counters`, `Executions`, `Attestations`, `Coverage`,
`Records`, `Throttling`, `Overlap`, `Serial`, `Sequential`, `Snapshots`, `Requests`). `Governor` is the class as it stands, one method per source method.
`Interleaving` is a machine in which any number of calls are in flight and every lock section, every atomic
increment and every returning request is a step of its own; `Counters`, `Executions`, `Attestations`, `Coverage`,
`Records` and `Throttling` prove inductive invariants over all its runs, `Overlap` has runs from the start,
`Snapshots` is what reading the counters in between can show, and `Requests` what is sent for a call, key by key. `Serial` connects the two: the machine's steps for one call, taken back
to back, are the class's `Admit`. Throughout, the session of an attestation is the governor's own label:
what is sent to the edge names none. `Sequential` treats runs without overlap.

## What turned out not to hold

Where the code does less than its comments or a first reading suggest, the model follows the code, a lemma
gives an input, and others say when the property does hold.

- A call can be admitted while its configuration is attested nowhere: when another call's attempt throttles it
  (`OverlapAdmitsUnattested`), and when its own attestation fails, even alone (`FailureAdmitsUnattested`). In every run
  these are the only ways: an admitted call's configuration is known to be attested, that is, it saw a record of it or the
  edge acknowledged its own attestation, exactly when it was neither throttled nor failed (`AdmittedAttestedIff`). What the
  edge knows can be more: a throttled call may be covered by an acknowledgement not yet recorded
  (`ThrottledThoughAcknowledged`), so no condition on the call alone decides that.
- A session's record can be left behind the last attestation acknowledged to the client for it (`StaleRecord`, a run from
  the start). In a run in which no two calls of a session are under way with different attestations it is not left
  behind: it is current exactly when no call holds an acknowledgement other than the one recorded (`RecordCurrentIff`), so
  it is behind at most while a call has yet to record (`UnrecordedIsBehind`). Wherever two calls do differ, their own
  remaining steps can leave it behind for good (`DifferingCallsCanGoStale`).
- `govern/governor.go:294-295` says only retries of a failed attestation are throttled. In the code only attempts for a
  session that was never attested are: a failing attestation of an attested session is sent again at once
  (`FailedReattestationRepeats`). `FirstAttemptsSpaced` therefore speaks of sessions not yet attested.
- `admission/config.go:37-39` sizes the hold against a 600 s budget, but the ceilings add up to 605 s: `NormalizedWait`,
  `SixHundredSecondsIff`.
- One retry does not outlast every restart of the edge: while its context lives a request fails as unauthorized exactly
  when the token changes between reading and checking in both attempts (`UnauthorizedIffChangedTwice`, `RestartingWorldDefeats`).
- `admission/client.go:304` reports a rejected token "after re-reading the token file". A request whose context ends just
  after a first 401 reports the same although the file was read once (`CanceledIsUnauthorized`), and that is the only way it
  does so: `UnauthorizedIff`.
- A `Stats()` snapshot can show more calls allowed than admitted (`TornSnapshot`), but only if a call was admitted between
  the two loads (`TornOnlyIfAdmitted`); every number in it is one its counter had in between (`SnapshotBetween`), and with
  no counter moving it is exact (`StillSnapshotExact`).
- Two first attestations of one session can be in flight together, if one is out for the whole 30 s retry interval. The
  bound is sharp (`ExclusiveIff`); the 5 s deadline, when kept, is well within it.
- Beyond 2^53 an integer still has a canonical form as `int` or `json.Number` but is refused as a float:
  `IntegerRepresentations`.

## Model

| member | source | states |
|---|---|---|
| Lexicographic.LessLoop | admission/canonical.go:176-183 | the comparison loop decides the lexicographic order of code units, a proper prefix first |
| Lexicographic.LessIffPrecedes | admission/canonical.go:176-183 | that order against its definition: one sequence comes first iff at the first difference its unit is smaller or it has ended |
| Lexicographic.Irreflexive | admission/canonical.go:176-183 | the order is strict |
| Lexicographic.Transitive | admission/canonical.go:176-183 | the order is transitive |
| Lexicographic.Connected | admission/canonical.go:176-183 | any two different code-unit sequences are ordered |
| Unicode.Utf16OfOrder | admission/canonical.go:156-160 | the code units of two different characters, surrogate pairs included, compare as the characters' ranks do, whatever follows |
| Unicode.Utf16OrderIsRankOrder | admission/canonical.go:156-160 | section 3.2.3 of RFC 8785: member order is code-point order with U+E000..U+FFFF moved above all supplementary planes |
| Unicode.Utf16Injective | admission/canonical.go:156-160 | different names never have the same code units, so no two members tie |
| Unicode.Utf16Names | admission/canonical.go:157 | a supplementary character becomes the surrogate pair that names it, any other its own unit |
| Unicode.Utf8RoundTrip | admission/canonical.go:233 | the bytes written for a text decode to that text |
| Unicode.Utf8Exact | admission/canonical.go:233 | a strict UTF-8 decoder accepts nothing but such bytes: no overlong forms, no surrogates |
| Unicode.Utf8OrderIsCodePointOrder | govern/governor.go:125 | byte order, which is Go's order of strings, is the order of code points |
| Ordering.BeforeTotal | admission/canonical.go:159-160 | member order is a strict total order on distinct names |
| Ordering.BeforeTransitive | admission/canonical.go:159-160 | member order is transitive on names |
| Ordering.OrdersExactly | admission/canonical.go:159-160 | the order of members is RFC 8785's, the order of names Go's, each stated on code points |
| Ordering.ListingSorted | admission/canonical.go:159-160 | every set of names has a listing in ascending order with exactly its names |
| Ordering.ListingUnique | admission/canonical.go:159-160 | it has only one, so the member order does not depend on where the names came from |
| Ordering.AscendingUnique | admission/canonical.go:159-160 | two ascending sequences with the same elements are equal |
| Ordering.Sort | admission/canonical.go:160 | sorting in place permutes the members and leaves them ordered |
| Ordering.Sink | admission/canonical.go:160 | moving one member to its place permutes and extends the sorted part |
| Ordering.SortFindsListing | admission/canonical.go:155-160 | whatever order a map's names were collected in, sorting them yields the one listing |
| Literal.ReadLiteralQuote | admission/canonical.go:222-237 | a written string literal decodes to exactly the string, whatever follows it |
| Literal.ReadMinimalSound | admission/canonical.go:212-237 | a text is read by the canonical string reader only if it is what is written for the result |
| Literal.QuoteShortest | admission/canonical.go:222-237 | no literal of section 7 of RFC 8259 that decodes to the same string, surrogate-pair escapes included, is shorter in bytes |
| Literal.QuoteUnique | admission/canonical.go:212-237 | the canonical literal is unique: a lower-case literal that decodes to the string and is as short is the one written |
| Literal.QuoteLower | admission/canonical.go:231 | no escape written has an upper-case hexadecimal digit |
| Literal.EscapeShortest | admission/canonical.go:212-237 | the same for one character and any of its spellings |
| Literal.QuoteNoControls | admission/canonical.go:225-237 | no raw control character reaches the output |
| Decimal.ReadFormat | admission/canonical.go:69-88 | a written integer is read back unless a digit follows it: numbers are not prefix-free |
| Decimal.ReadIntSound | admission/canonical.go:69-88 | an integer is read only from its one canonical spelling |
| Decimal.LiteralIsFormat | admission/canonical.go:29 | an accepted integer literal is already the canonical spelling of its value, except -0 |
| Json.ReadPrint | admission/canonical.go:57-130 | round trip: a value's canonical text followed by anything but a digit is read as that value and that rest |
| Json.ReadSound | admission/canonical.go:57-130 | the reader accepts nothing but canonical text, and takes a number to its last digit |
| Json.CanonicalExactly | admission/canonical.go:57-130 | canonical texts and JSON values correspond one to one |
| Json.PrintInjective | admission/canonical.go:57-130 | different JSON values have different canonical texts |
| Json.MembersInOrder | admission/canonical.go:159-172 | in the text of an object its members stand once each, in ascending order of code points with U+E000..U+FFFF last |
| Canonical.WriteEscaped | admission/canonical.go:225-237 | the loop appends the string's literal to the buffer and nothing else |
| Canonical.WriteFloat | admission/canonical.go:185-194 | writes a float iff it is integral and at most 2^53 in magnitude, as that integer; a refused one leaves the buffer alone |
| Canonical.WriteNumber | admission/canonical.go:196-210 | writes a json.Number iff it denotes an integer, by the literal or by its float value |
| Canonical.CollectMembers | admission/canonical.go:155-158 | every name of the map once, in any order, each with its code units |
| Canonical.SortedMembers | admission/canonical.go:155-160 | collecting in any order and sorting in place gives the listing of the map's names |
| Canonical.WriteMember | admission/canonical.go:162-171 | appends one member of the object's canonical text, or fails iff its value denotes nothing |
| Canonical.WriteObject | admission/canonical.go:150-174 | appends the canonical text of the object the map denotes, iff every member's value denotes something |
| Canonical.WriteList | admission/canonical.go:99-109 | appends the canonical text of the array the slice denotes, iff every item denotes something |
| Canonical.WriteStrings | admission/canonical.go:110-118 | appends the canonical text of the array of strings |
| Canonical.WriteValue | admission/canonical.go:57-130 | succeeds iff the Go value denotes a JSON value, and then appends exactly that value's canonical text |
| Canonical.CanonicalJSON | admission/canonical.go:38-44 | the result is the canonical bytes of what the value denotes, whatever the map iteration order |
| Canonical.Recognizes | admission/canonical.go:19-27 | independent check of the bytes: a byte sequence is read as a JSON value iff it is that value's serialization |
| Canonical.ReadsBack | admission/canonical.go:38-44 | a successful serialization reads back as what the Go value denotes |
| Canonical.Canonicity | admission/canonical.go:19-27 | two Go values have the same bytes iff they denote the same JSON value |
| Canonical.Fixpoint | admission/canonical.go:34-37 | serializing, decoding and serializing again gives the same bytes |
| Canonical.DecodedDenotes | admission/canonical.go:132-148 | what a JSON value decodes to denotes that value |
| Canonical.RefusedExactly | admission/canonical.go:95-128 | refused are bytes, values encoding/json cannot marshal, and whatever has a refused part; nothing else but floats and numbers can be |
| Canonical.DenotesExactly | admission/canonical.go:57-128 | everything else denotes the JSON value of its kind, part by part |
| Canonical.IntegerRepresentations | admission/canonical.go:69-94 | every integer of any size is the same value as a json.Number, and as an int or a uint where those hold it; as a float iff its magnitude is at most 2^53, and refused otherwise |
| Canonical.FloatExactly | admission/canonical.go:185-194 | exactly the finite integral floats of magnitude at most 2^53 are serialized, as those integers, and the negative zero as 0; all others are refused |
| Canonical.NumberExactly | admission/canonical.go:196-210 | a json.Number stands for the integer whose canonical digits it is, or 0 for -0; else for what its float does |
| Canonical.SliceRepresentations | admission/canonical.go:99-118 | a []string and a []any of the same strings denote the same value |
| Decoder.DecodesPrint | admission/canonical.go:57-130 | a general reader of JSON, with white space, any escapes and any member order, reads a canonical text as its value, whatever follows that does not continue a number |
| Decoder.SerializationDecodes | admission/canonical.go:19-27 | the bytes of every serialization are UTF-8 text that such a reader decodes to what the Go value denotes |
| Config.Normalized | admission/config.go:233-250 | an unset or negative decision timeout becomes 500 ms, a negative hold 0, anything above a ceiling the ceiling; everything else is unchanged, hence idempotent |
| Config.WholeSecondsExactly | admission/client.go:200 | whole seconds are the nearest second toward zero |
| Config.HoldSecondsExactly | admission/client.go:185-200 | a call's hold is worth the most whole seconds that both the caller's and the configured budget hold, and none for a negative one |
| Protocol.WireVerbatim | admission/types.go:79-119 | the body carries the tool name and input verbatim and the hold budget iff one is set |
| Protocol.WireHold | admission/types.go:112-124 | requests that differ in a nonnegative budget differ on the wire in that field only, and are refused alike |
| Protocol.RefusedIff | admission/types.go:80-118 | a request is refused before it is sent iff its surface is unknown, its tool name blank or its hold negative |
| Protocol.WireTexts | admission/types.go:91-111 | surface, version, session, directory and id are each sent under their own key, iff nonempty, and no other key is sent |
| Protocol.TrimExactly | admission/client.go:239 | trimming leaves what white space frames, and nothing iff there is only white space |
| Protocol.SpacesExactly | admission/types.go:88 | white space by code point, as the trimming takes it |
| Protocol.ParsedCarries | admission/types.go:158-188 | a parsed decision is the body's, field by field; anything else is a protocol error |
| Admission.Client.Request | admission/client.go:273-308 | the retry loop returns the run's result, makes exactly its round trips in order, and grants it its time |
| Admission.Client.Admit | admission/client.go:134-150 | the same for one admit |
| Admission.Client.DecideWithin | admission/client.go:192-209 | the same for a two-phase decision |
| Admission.Client.Decide | admission/client.go:179-181 | the decision under the configured budget |
| Admission.Client.DecideWithHoldBudget | admission/client.go:185-190 | the decision under the smaller of the caller's budget, at least 0, and the configured one |
| Admission.Client.Attest | admission/client.go:154-157 | one request to the attest path under the attestation deadline |
| Admission.Client.constructor | admission/client.go:91-104 | the client holds the normalized configuration, and accepts iff its configured address names a target |
| Guarantees.DecisionIffSaid | admission/client.go:373-401 | a reply parses to a decision iff it is a 200 with a version header naming no version but 1 and a well-formed object that says it |
| Guarantees.AttemptsResult | admission/client.go:283-307 | a request's result is what its last answer means; a request whose last trip was no usable answer is an error |
| Guarantees.AdmitIffSaid | admission/client.go:134-150 | an admit yields a decision iff its last reply says it, with the input that reply carries |
| Guarantees.VerdictCarries | admission/client.go:434-471 | a verdict carries, field by field, the decision the edge gave last, or the held one when phase 2 failed; only an allow passes on an input and a route; errors are those of the phase that failed |
| Guarantees.AllowedIffAnswered | admission/client.go:172-209 | no fabricated and no lost allow: allowed iff the last exchange says allow; then no error, not held, and the updated input is that reply's |
| Guarantees.AllowedIffVersionOne | admission/client.go:374-390 | where a present header has a value, as in every parsed response: allowed iff the last exchange is a 200 whose version header is "1" and whose object says allow |
| Guarantees.NoContentDenies | admission/client.go:380-382 | a decision whose last answer is a 204, or anything but a 200, is never an allow |
| Guarantees.RefusedSendsNothing | admission/client.go:97-104 | a client built on a refused address denies every call and sends nothing; one that sends dials a socket path or a loopback endpoint |
| Guarantees.VerdictPartition | admission/types.go:213-219 | each verdict is in exactly one of allowed, policy-denied, held, adapter error; denied iff the last answer said deny; held iff it said held and nothing failed since; held with an error iff a held phase 1 was followed by a failed phase 2 |
| Guarantees.RequestTrips | admission/client.go:283-307 | at most two round trips, a second only after a 401, each with a token freshly read for it |
| Guarantees.TokensPresented | admission/client.go:229-244 | each round trip presents the nonempty token that white space frames in the file as read for that attempt |
| Guarantees.KindIff | admission/client.go:273-401 | which error a request reports, for each of the eight kinds and every world |
| Guarantees.SucceedsIff | admission/client.go:283-307 | a request succeeds iff it starts and the attempt that decides goes out and is acknowledged, with that reply's body |
| Guarantees.UnauthorizedIff | admission/client.go:283-305 | a token is reported as rejected iff the request can be sent, its first attempt meets a 401, and then the context has ended or the second attempt meets one too; after one round trip, iff the context has ended |
| Guarantees.CanceledIsUnauthorized | admission/client.go:301-304 | a caller who gives up just after a first 401 is told of a rejected token though the file was read once |
| Guarantees.DecideTrips | admission/client.go:192-209 | at most four round trips, all to the admit path |
| Guarantees.HoldProtocol | admission/client.go:192-209 | phase 1 always asks with budget 0; a later request differs from it only in the budget, the whole seconds allowed |
| Guarantees.SecondRequestIff | admission/client.go:197-204 | when due, a second request goes out iff its body encodes within the cap, the context lives and the token can be read |
| Guarantees.BudgetBound | admission/client.go:185-200 | the budget asked for exceeds neither the caller's, nor the configured one, nor 570 s |
| Guarantees.CappedHold | admission/client.go:185-205 | under a caller's budget the edge is asked again iff the call was held and both budgets are worth a second, and then for the most whole seconds that both hold |
| Guarantees.WithinWorstWait | admission/client.go:192-209 | the deadlines of one decision sum to at most the timeout plus the whole hold seconds plus the margin |
| Guarantees.DecideGranted | admission/client.go:192-209 | the time a decision is granted, exactly: the timeout, and the whole seconds and 5 s more when it asks again, for each request whose clock starts |
| Guarantees.HeldWorldWaits | admission/client.go:200-204 | some world makes a decision wait that long |
| Guarantees.SixHundredSecondsIff | admission/config.go:28-46 | every world stays within 600 s iff the configured sum does |
| Guarantees.NormalizedWait | admission/config.go:28-46 | after normalization at most 605 s, at most 600 s with a timeout of 25 s or less; both are reached |
| Guarantees.DecideVerbatim | admission/client.go:192-209 | every round trip of a decision asks about the caller's own tool and input |
| Guarantees.SuccessAnswered | admission/client.go:371-401 | a request succeeds only if its last round trip, with its own path and body, was acknowledged |
| Edge.FakeEdge.RotateToken | internal/edgetest/edge.go:264-271 | rotating replaces the accepted token and rewrites the file, and nothing else |
| Edge.FakeEdge.Serve | internal/edgetest/edge.go:310-393 | every request is recorded with its token and version and answered as the edge's rules have it, a health check before any token check, error bodies included, with the state they leave |
| Edge.AnswersExactly | internal/edgetest/edge.go:364-393 | each request's answer and the state it leaves, case by case: health, wrong token after a rotation due, wrong version, attestation, script used up or default, and not found |
| Edge.RepliesExactly | internal/edgetest/edge.go:349-352 | a scripted response goes out as it is, an unset status as 200 |
| Edge.HoldBudgetExactly | internal/edgetest/edge.go:46-54 | the hold budget of a request is its whole number toward zero, -1 when absent |
| Edge.HeldBodyParses | internal/edgetest/edge.go:119-150 | the held answer parses to a held decision with its approval id, apr-hold by default |
| Edge.AllowBodyParses | internal/edgetest/edge.go:86-100 | the default allow parses to an allow without input or route |
| Edge.RejectedIff | internal/edgetest/edge.go:370-376 | against an edge in step with its file, a 401 comes iff the token changed between reading and checking |
| Edge.TokensAreTheEdges | internal/edgetest/edge.go:298-308 | against an edge in step, the token each round trip presents is the edge's own as the file had it |
| Edge.UnauthorizedIffChangedTwice | admission/client.go:297-305 | against an edge in step with its file, a request fails as unauthorized iff it can be sent and the token changes between reading and checking in both attempts |
| Edge.RotationTolerated | admission/client.go:297-305 | if the edge restarts at most once while a request is under way, the request never fails as unauthorized |
| Edge.TwoRotationsDefeat | internal/edgetest/edge.go:264-271 | any two restarts to other tokens, each between reading and checking, make it fail so |
| Edge.RestartingWorldDefeats | internal/edgetest/edge.go:264-271 | an edge fresh from New that restarts once in each attempt defeats every request that can be sent |
| Edge.HoldResolves | internal/edgetest/edge.go:135-157 | against an edge answering from a hold script, through its token and version checks, two requests go out, with budget 0 and with the whole seconds, and the verdict is the script's outcome |
| Loopback.DottedExactly | admission/config.go:156 | dotted decimal names each IPv4 address in exactly one spelling |
| Loopback.MatchExactly | admission/config.go:61 | a text matches iff it is host:port or [host]:port with those parts, and nothing around them |
| Loopback.AcceptedCharacters | admission/config.go:58-61 | no accepted address contains userinfo, path, query, fragment, zone or white space |
| Loopback.AcceptedIsLoopback | admission/config.go:138-163 | an accepted address gives host ::1 or a 127 address without leading zeros, and a port in 1..65535 |
| Loopback.BareAcceptedIff | admission/config.go:130-163 | an unbracketed host is accepted iff it is localhost or such a 127 address: no other name or spelling; it yields that address, 127.0.0.1 for localhost, and the port as written |
| Loopback.BracketedAcceptedIff | admission/config.go:138-163 | a bracketed host is accepted iff it reads as a loopback address, and is named by that address's own text |
| Loopback.DialTargetFixpoint | admission/config.go:138-163 | joining an accepted host and port and parsing again gives the same pair |
| Loopback.SplitExactly | admission/config.go:115-128 | a socket path follows unix:// or unix: or starts at the root; anything else is host and port |
| Loopback.DialsExactly | admission/client.go:97-104 | what is dialed: the socket path as it stands unless empty, or the host and port parsed |
| Loopback.StandardAddress | admission/config.go:76 | the default address dials its socket |
| Loopback.LocalhostDials | admission/config.go:153-155 | localhost:8777 dials 127.0.0.1 at 8777 |
| Loopback.DialsFixpoint | admission/client.go:97-104 | a configured address that is accepted names a nonempty socket path or a loopback endpoint, whose own text configures the same target |
| Governance.DedupeElements | govern/governor.go:378-386 | dedupe adds exactly the nonempty new names, after the ones there, with no duplicates |
| Governance.RegisterElements | govern/governor.go:138-146 | register adds exactly the name, once, the empty name included |
| Governance.SurfaceKnown | govern/governor.go:68-79 | whatever the options, the request surface is one the edge defines |
| Governance.SurfaceExactly | govern/governor.go:68-79 | the surface is the one whose framework spelling the name is, else custom |
| Governance.DocumentDenotes | govern/governor.go:154-167 | the hashed document always serializes, and its members are the posture's |
| Governance.DocumentExactly | govern/governor.go:154-163 | the hashed document has its eight members under their own keys and nothing else, the three lists ascending |
| Governance.AttestReports | admission/types.go:271-303 | the attestation sent holds its texts and its three lists under their own keys, each list ascending and absent when empty, and the hash of the canonical document; nothing else |
| Governance.BytesIffSamePosture | govern/governor.go:150-178 | two configurations hash the same bytes iff framework, version and the three sets of names are equal |
| Governance.InventoryElements | govern/governor.go:131-146 | after any declarations and calls the inventory is exactly the names governed, without duplicates, in order of arrival |
| Governance.BuildNames | govern/governor.go:96-115 | what New keeps of its options: the last framework, its version and surface, and the names of each kind without the empty one |
| Governance.AttestationIdentity | govern/governor.go:131-178 | over whole histories of options, declarations and calls, two governors hash the same bytes iff framework, version and the governed, ungoverned and other-server sets are equal |
| Governance.Merge | govern/governor.go:256-264 | the input to run has the keys of both, the edge's value where it gives one, the caller's elsewhere |
| Governor.DedupeLoop | govern/governor.go:378-386 | the loop computes dedupe |
| Governor.MergeLoop | govern/governor.go:259-264 | the two copies, in any key order, compute the merge |
| Governor.SortNames | govern/governor.go:125 | sorting distinct names in place gives the byte-order listing of their set |
| Governor.Governor.constructor | govern/governor.go:96-115 | a new governor has an empty inventory, no records, zero counters and the identity its options build |
| Governor.Governor.Declare | govern/governor.go:131-135 | the inventory gains exactly the nonempty names declared, and nothing else changes |
| Governor.Governor.RegisterTool | govern/governor.go:138-146 | the inventory gains the name, reported as new iff it was not there |
| Governor.Governor.HookedTools | govern/governor.go:122-126 | the governed names, ascending |
| Governor.Governor.Attestation | govern/governor.go:150-178 | body and hash are those of the current posture |
| Governor.Governor.ShouldAttest | govern/governor.go:287-303 | the answer and the noted attempt, records untouched |
| Governor.Governor.EnsureAttested | govern/governor.go:310-324 | sends if due, records iff acknowledged, and changes nothing else |
| Governor.Governor.Admit | govern/governor.go:215-254 | the input to run or a denial, with the whole new state and the exact round trips made |
| Governor.Governor.Call | govern/tool.go:63-70 | the inner tool runs iff the call was admitted, once, with the admitted input, after exactly the round trips of that admission |
| Governor.Inner.Call | govern/caller.go:41-48 | the inner client is called with the tool's name and the given input |
| Requests.DecisionAsks | govern/governor.go:220-230 | every round trip of a call's decision asks about that call, key by key: tool, input, session, directory, id, surface and version |
| Requests.AttestationReports | govern/governor.go:310-315 | every round trip of an attestation reports the posture, under a 5 s deadline |
| Requests.AdmitSends | govern/governor.go:215-230 | all a call on its own sends is attestations of the inventory with its tool in it, and requests about the call |
| Requests.ExchangesAsk | govern/governor.go:220-230 | over every interleaving, every request for a decision asks about the call it was sent for |
| Interleaving.Enters | govern/governor.go:215-218 | a call's steps up to its attestation decision, as one change of state |
| Counters.CountersKept | govern/governor.go:229-252 | every step of every call keeps each counter equal to the calls it counts |
| Counters.CounterConservation | govern/governor.go:229-252 | over every interleaving: admitted = allowed + denied + unreachable + held without error + still open; routed at most allowed, held at most admitted |
| Counters.Quiescent | govern/governor.go:229-252 | in every run, once all calls have returned: admitted is the number of calls, and is allowed + denied + unreachable + held without error |
| Counters.CountersMonotone | govern/governor.go:192-194 | no counter ever goes down |
| Snapshots.SnapshotBetween | govern/governor.go:196-206 | every number of a snapshot lies between its counter's values at the first and the last load |
| Snapshots.StillSnapshotExact | govern/governor.go:196-206 | a snapshot during which no counter moves is exact and obeys the conservation law |
| Snapshots.TornOnlyIfAdmitted | govern/governor.go:198-199 | a snapshot shows more allowed than admitted only if a call was admitted between those two loads |
| Snapshots.TornSnapshot | govern/governor.go:198-199 | and one can, from the start |
| Executions.SafeKept | govern/governor.go:230-253 | every step keeps each verdict backed by an exchange of its own call |
| Executions.ExecutionSafety | govern/tool.go:63-70 | over every interleaving and any edge, each execution has an allow of its own, received for that tool and input, and runs exactly what that allow carries merged over the input |
| Attestations.HonestKept | govern/governor.go:287-324 | every step keeps records true, snapshots part of the inventory, and each call's tool in its snapshot |
| Attestations.RecordsAreAcknowledged | govern/governor.go:310-324 | over every interleaving the inventory has no duplicates and each record is the hash of an attestation of still-governed tools that the edge acknowledged and whose body reports them |
| Attestations.SkippedIsThrottledOrAttested | govern/governor.go:287-303 | at any point of any run a call goes on with no record and nothing sent iff it is throttled; if it goes on unthrottled, the edge acknowledged its digest for its session, and so its exact tools unless digests that occur collide |
| Coverage.TracedKept | govern/governor.go:287-324 | every step keeps each call's acknowledgement in line with what it saw and whether its attestation failed |
| Coverage.AdmittedAttestedIff | govern/governor.go:215-218 | in every run an admitted call's configuration is known to be attested, by a record it saw or by its own acknowledgement, iff it was neither throttled nor failed; then an acknowledged body of its session names its tool as hooked |
| Records.CurrentKept | govern/governor.go:310-324 | every step keeps a session's record current or its last acknowledgement held, failures included, where calls under way agree |
| Records.RecordIsLastAcknowledged | govern/governor.go:310-324 | in every run in which no two calls of a session are under way with different attestations, the record is the last attestation acknowledged to the client, or a call holds that one unrecorded |
| Records.RecordCurrentIff | govern/governor.go:310-324 | in such a run the record is the last acknowledgement iff every call holding one would find its own attestation recorded already |
| Records.DifferingCallsCanGoStale | govern/governor.go:315-323 | the converse: at any point of any run where two are, their own remaining steps can leave the record behind the last acknowledgement |
| Attestations.InventoryOnlyGrows | govern/governor.go:131-146 | the inventory only ever grows, at its end |
| Attestations.InventoryStep | govern/governor.go:131-146 | each step adds exactly the names it declares, or the tool it registers, and nothing else |
| Throttling.SpacedKept | govern/governor.go:287-303 | every step keeps first attempts spaced and attempts noted |
| Throttling.FirstAttemptsSpaced | govern/governor.go:19 | over every interleaving an attempt for a never-attested session comes at least 30 s after every earlier one for it |
| Throttling.FirstAttestationsExclusive | admission/config.go:43-45 | if no attestation is out for 30 s, as with the 5 s deadline kept, two first attestations of one session are never in flight together |
| Throttling.ExclusiveIff | govern/governor.go:296-300 | the bound is sharp: first attestations are exclusive over all runs iff none is out for the whole retry interval |
| Overlap.OverlapAdmitsUnattested | govern/governor.go:296-300 | from the start, two overlapping calls of a session: the second is throttled and reaches its admission with nothing attested |
| Overlap.FailureAdmitsUnattested | govern/governor.go:315-320 | from the start, a lone call whose attestation fails is admitted with nothing attested and no throttle |
| Overlap.ThrottledThoughAcknowledged | govern/governor.go:315-323 | from the start, a throttled call whose tool an acknowledged but unrecorded attestation already names |
| Overlap.FailedReattestationRepeats | govern/governor.go:294-300 | from the start, an attested session sends a failing attestation again with no time between |
| Overlap.StaleRecord | govern/governor.go:315-323 | from the start, two overlapping re-attestations leave a record that is not the last acknowledged attestation |
| Overlap.UnrecordedIsBehind | govern/governor.go:315-323 | from the start, one call alone leaves the record behind until it records |
| Serial.DecideFrom | admission/client.go:192-209 | a decision depends only on the attempts from where it starts |
| Serial.SerialCallIsAdmit | govern/governor.go:215-254 | the machine's steps for one call, taken back to back, leave the state, the answer, the round trips and the acknowledgement the governor's Admit does |
| Serial.AdmittedOnAllow | govern/governor.go:229-253 | a lone call is admitted iff its last round trip is an admit that allows, and then it asked about this tool and input; what runs is the input that answer carries merged over the caller's |
| Sequential.DueIffUnseen | govern/governor.go:287-303 | without overlap a call attests iff its session sees that set of tools for the first time: no set comes back |
| Sequential.CallingSettled | govern/governor.go:215-218 | a call keeps the record equal to its session's last attestation, and the count equal to the sets seen |
| Sequential.AttestationsCountAndCover | govern/governor.go:305-324 | in runs without overlap whose attestations succeed, a session sends as many attestations as distinct tool sets it saw, the body of its last acknowledged one names each call's tool as hooked, and the record is that one |

## Left out

- Canonical.WriteValue: a value of a type outside the switch is carried together with the generic value `encoding/json` makes of it (or its failure); that package itself is not modelled.
- Canonical.WriteNumber: a `json.Number` that is no integer literal is carried together with the float it parses to; decimal exponents and float rounding are not modelled.
- Canonical.CanonicalJSON: the narrower integer types share the constructors of `int64` and `uint64`, since they are widened before they are written.
- Canonical.WriteEscaped: strings are sequences of Unicode scalar values; strings that are not valid UTF-8, whose bad bytes Go replaces on the way out, are excluded by the type.
- Ordering.Sort: `sort.Slice` is library code; it is modelled as an in-place insertion sort with the same contract.
- Loopback.DialTargetFixpoint: IPv6 literals are read by a parameter of which only `::1` is assumed; every statement holds for any such reader. IPv4-mapped literals count as IPv4, as in `net.IP`.
- Governor.Governor.Attestation: SHA-256 is a parameter, an arbitrary function from bytes to a string; where distinct digests are needed the assumption names the inventories of the run at hand and asks that their digests be nonempty and differ where the documents do. Posture extras of `Attestation` that the governor never sets are absent.
- Governor.Governor.Admit: the session id (fixed, from the context or per process), working directory and tool-use id arrive as part of the call; reading them from the context, the process or a random source is not modelled. The input map is immutable, so a caller changing it during the call is not covered.
- Governor.Governor.Call: stands for the tool wrapper and the client wrapper alike; their result types are opaque and `WrapAll` only repeats `Declare`.
- Records.RecordIsLastAcknowledged: speaks of acknowledgements the client received. An attestation the edge accepted whose reply was lost is a failed one to the governor, so the record can be behind what the edge saw even without overlap.
- Executions.ExecutionSafety: the round trips of one decision enter the machine's log together, when it returns; a request touches no shared state before that.
- Decoder.DecodesPrint: the general reader takes numbers without fraction or exponent only, the ones JSON values here are.
- Guarantees.VerdictPartition: verdicts carry no message text; the wording for the model, `summarize` and `reasonOr` are not modelled.
- Admission.Client.Request: sockets, HTTP, the clock and the token file are the world's answers; a reply over the size limit, a transport error and a context ending are among them. JSON encoding of a request is the world's too: its size, or its failure.
- `Health`, environment variables and `ParseDuration`, platform defaults, logging and error wrapping are single-branch plumbing.
- The sandbox posture and other optional attestation fields of a direct `Attest` caller would only add members like those modelled.
