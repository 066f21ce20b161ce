# pia-wg-config: a verified model

This project models the parts of pia-wg-config whose correctness spans several functions, and proves
properties of them for all inputs, all runs and all environments.

**The constrained run** (`Machine`, `RunFacts`, `RunSafety`, `RunSuccess`, `RunExists`, `Runner`,
`Transport`). A run is sixteen stages: the invocation, the socket mark, four bounded reads, two requests, a validation, two writes and
the gates between them. Everything outside the program is one arbitrary script (`Machine.Env`): the
arguments, the bytes read, every delay, every dial the HTTP transport makes, the certificate verdicts,
the answers, the outcome of every write and the instant of an interrupt. `RunSafety` proves what holds in
every reachable state: which events occur, in which order, how often, with which content, by when, and
what a reason to stop says about them. `RunSuccess` says exactly when a run succeeds, and `RunExists`
exactly which valid plans can. `Runner` is the runner as written, an object with a clock and
early returns, proved to do what the step machine does on every script.

**The inputs** (`Text`, `Utf8`, `JsonGrammar`, `JsonParser`, `JsonString`, `JsonDecode`, `StrictJson`,
`DecodedUtf8`, `CredentialInput`, `Plan`, `Argv`, `SocketMark`, `Ipv4`, `Url`, `AddKey`, `AnswerRules`).
JSON is modelled as RFC 8259 has it, sections 2, 4 and 7, as concrete syntax trees that keep every byte, so that a parser can be compared with
the texts it should accept. The strict object reader is a loop over a decoder with a position; it is proved
equal to a function, and the function is proved to accept exactly the texts described in terms of the
grammar, including that nothing may follow the closing brace.

**The outputs** (`JsonPrint`, `JsonLayout`, `PlanPrint`, `AnswerPrint`, `Records`, `RecordReading`, `ConfigSize`,
`ConfigReading`, `Failure`). Printing and parsing are inverses, records and configs fit their limits, and a
failure record alone tells in which stage a run stopped.

**The server list** (`Retry`, `CachePolicy`, `CacheFile`, `Regions`). The retry loop, the cache policy over
many calls, the write-temp-then-rename protocol with crashes and concurrent processes, and the grouping of
servers by region.

Bytes are characters 0 to 255 of a `string`. Times are nanoseconds. A comment of the form `/** name. */`
gives the function of the program that a member models.

## What the proofs found

- The size tests on the config and on both records never fire, so `internal_failure` means that no key pair
  could be made or that no URL can be built from the candidate's name (`RunSafety.InternalFailureExactly`).
- The plan validator takes names from which no URL can be built: a percent sign that begins no escape, a
  byte such as a backslash that may not stand in a host, a DEL byte. It also takes names that begin with `?`
  or `#`, whose URL has no host. A run with such a plan cannot succeed, and learns so only after the token has
  been fetched (`RunExists.CanSucceedExactly`, `RunExists.ValidNamesThatCannotBeSent`).
- With a `?` or a `#` elsewhere in the name the request that is sent is not the one for `/addKey`, and with a
  `#` it has neither token nor key in it (`RunSafety.RequestAsksForKey`, `Url.CutName`).
- Only one gate can ever fail on time, the one before the token request; the budgets of the later gates are
  exact, and a failure there is always a cancellation (`RunSafety.OnlyOneGateFailsOnTime`).
- Of all reasons only `cancelled` leaves open where a run stopped.
- So with every read, request and write inside its own timeout, success needs no more of the clock than
  that the four inputs are read within 15 seconds (`RunSuccess.SucceedsExactly`).
- Validation accepts a server key with newlines in it, since the key parser skips them, and then the config
  does not read back as written; `ConfigReading.ConfigReadsBack` says exactly when it does.
- The repository's README.md:92 names `token_request_failed` for a refused mark; the add-key request reports
  it too, with `add_key_request_failed` (constrained.go:933-935).
- The comment in pia/serverlist.go:90 calls DNS failures and refused connections transient. They reach
  `isTransientError` wrapped by the HTTP client, so unless they timed out they are not retried
  (`Retry.RetriedReplies`).
- pia/serverlist.go:23 gives 5 as the default number of attempts; the code makes 6 (pia/serverlist.go:100-102).
- A stale copy is within its maximum age when it is decided on, and is served after the refresh has failed.
  It is still within it then, whatever the network does, exactly if its age at the decision leaves room for
  the fetches and all the pauses, which are 67 seconds with the default options
  (`CachePolicy.StaleAgeExactly`, `CachePolicy.DefaultStaleAge`).
- A reader of the cache may take an old version for a young one if two writers overlap
  (`CacheFile.OverlapMisleads`), and only if a rename brings an older file (`CacheFile.AgesNeverUnderstated`).
- A client may be created for a region that has no metadata server (`Regions.MetadataMayBeMissing`).

## Model

| member | source | states |
|---|---|---|
| RunSafety.StepSound | constrained.go:343-454 | every step of a run keeps the invariant on knowledge, time, trace, progress and reason |
| RunSafety.EveryState | constrained.go:343-454 | the invariant holds in every reachable state of every run, whatever the environment |
| RunSafety.RunEnds | constrained.go:343-454 | a run ends within sixteen steps, either stopped for a reason or past the last stage |
| RunSafety.RunsOnTime | constrained.go:318-335 | a run is over within 55 s and its failure record within the 60 s deadline; a deadline failure can only be the gate before the token request |
| RunSafety.OnlyOneGateFailsOnTime | constrained.go:475-484 | a gate that stops a run that was not cancelled is the second 45 s gate, more than 15 s in |
| RunSafety.AtMostTwoConnects | constrained.go:961-993 | in any state, two connects are the token address on 443 and then the candidate on 1337, and there is no third |
| RunSafety.AtMostOnce | constrained.go:343-454 | each input is read, each request started, and config and success record written at most once |
| RunSafety.ConfigIsApproved | constrained.go:410-428 | bytes reach the config descriptor only for a validated answer whose address and port differ from the excluded ones, after a connection to the candidate, with 15 s left |
| RunSafety.RecordFollowsConfig | constrained.go:426-452 | any part of a success record is the last event and comes after the complete config |
| RunSafety.SuccessMeansRecorded | constrained.go:343-454 | a run has no failure reason exactly when the whole success record was written and the write reported no error |
| RunSafety.ReasonLocates | constrained.go:343-454 | every reason but cancellation determines the stage, hence the inputs read, the requests started and the config tried or completed |
| RunSafety.RecordLocates | constrained.go:456-473 | two runs with equal failure records stopped for the same reason, in the same stage unless cancelled |
| RunSafety.SocketsAreMarked | socket_mark.go:71-86 | with a mark given, every connect in every state follows a successful setting of that value on the same socket |
| RunSafety.RefusedMarkMeansNoConnect | socket_mark.go:68-86 | a request that failed for its mark has connected nowhere |
| RunSafety.RefusedTokenMark | constrained.go:892-901 | a refused mark stops the run in the token request; if the transport delivers the error of the dial that opened the socket in time, the mark is the reason exactly when it was refused |
| RunSafety.RefusedAddKeyMark | constrained.go:928-937 | the same for the add-key request |
| RunSafety.InternalFailureExactly | constrained.go:401-409 | a run stops for an internal failure exactly at the add-key request, without a key pair or with a name that gives no URL |
| RunSafety.HostlessFails | constrained.go:920-937 | a name that leaves the URL without a host fails the add-key request before any dial |
| RunSafety.RequestAsksForKey | constrained.go:921-926 | in any state the add-key request asks for /addKey with the token received and the public key exactly if the name has no hash and no question mark |
| Url.AsksExactly | constrained.go:921-922 | the same of the URL alone, and a server reads the token and the key back from its query |
| Url.CutName | constrained.go:921-922 | what a hash or a question mark in the name makes of the URL |
| Url.HostIsRequestHost | constrained.go:921-926 | whether a URL can be built, and for which host, depends on the name alone |
| Url.QueryReads | constrained.go:921-922 | the encoded query reads back as the token and the key |
| RunSafety.AcceptedInvocation | constrained.go:343-346 | an accepted command line whose mark does not begin with -- is recognised and passes the invocation check |
| RunSuccess.SucceedsExactly | constrained.go:343-454 | a run succeeds exactly when the inputs are good and read within 15 s, both answers come in full and are approved, both writes go through, and no cancellation comes before the config is out |
| RunSuccess.GetsPast | constrained.go:343-454 | a run gets past its first n stages exactly when the environment does what each asks, and when that is |
| RunSuccess.PeersAreTrusted | constrained.go:1016-1044 | past a request the server's chain was good and named the host; only the candidate may be named by a certificate without names |
| RunExists.CanSucceedExactly | constrained.go:343-454 | there is an environment with this valid plan, these libraries and an accepted command line in which the run succeeds exactly if the candidate's name can be sent |
| RunExists.SomeRunSucceeds | constrained.go:343-454 | and here is one |
| RunExists.ValidNamesThatCannotBeSent | constrained.go:1245-1255 | names that pass validation and cannot be sent |
| RunFacts.StageFacts | constrained.go:343-454 | each stage keeps its time, learns what the next needs, causes only justified events in order, and explains its failure |
| RunFacts.GateTime | constrained.go:475-477 | what a passed gate leaves, and exactly when each gate fails |
| RunFacts.ConfigAlwaysFits | constrained.go:423-425 | the size test on the config cannot fire in a run |
| RunFacts.RecordAlwaysFits | constrained.go:447-452 | neither size test on the success record can fire in a run |
| RunFacts.DialFacts | constrained.go:982-992 | one request leaves at most a mark and a connect after its start, to its target only |
| Runner.ConstrainedRunner.Execute | constrained.go:343-454 | the runner with its early returns has the outcome, clock and effects of the step machine |
| Runner.ConstrainedRunner.RequestToken | constrained.go:884-918 | the token request as written has the effect of its stage |
| Runner.ConstrainedRunner.RequestKey | constrained.go:920-954 | the add-key request as written has the effect of its stage |
| Runner.ConstrainedRunner.ReadLimited | constrained.go:586-620 | a read yields at most the limit, within its timeout |
| Runner.ConstrainedRunner.WriteLimited | constrained.go:622-654 | a write puts a prefix through, within its timeout, and succeeds only if it is everything |
| Runner.ConstrainedRunner.WriteFailure | constrained.go:456-473 | the failure record is written after whatever the descriptor already holds, and a failed write changes the exit class |
| Runner.ConstrainedRunner.Act | constrained.go:318-335 | the exit, the full trace with the failure record, and the deadline, for every script |
| Transport.Client.Dial | constrained.go:982-992 | the dial closure: network check, one dial only, mark before connect |
| Transport.Client.DialAll | constrained.go:982-992 | any number of calls of the closure has the events and results of the script |
| Transport.OneSocket | constrained.go:961-993 | however often the closure is called, only its first TCP call opens a socket |
| Transport.ClientIsTame | constrained.go:961-993 | at most one marked socket to the target, marked before it connects, never connected if the mark is refused |
| Transport.RefusedExactly | socket_mark.go:71-86 | some dial reports a refused mark exactly if the mark is refused on the socket that is opened |
| Transport.RefusedMarkReported | constrained.go:892-901 | a refused mark always fails the request; if the transport delivers that dial's error in time, the mark is the reason exactly then |
| StrictJson.StrictExact | constrained.go:785-823 | a text is accepted with these fields exactly when it is blanks and one object to the last byte, valid UTF-8, its keys allowed and distinct, and the fields are its members |
| StrictJson.ReadStrictObject | constrained.go:785-823 | the decoder loop returns what the function says, unexpected field and malformed text told apart |
| StrictJson.Decoder.NextToken | constrained.go:793-815 | one token of the decoder: what it returns and how far it moves |
| StrictJson.Decoder.DecodeRaw | constrained.go:808-810 | one raw value of the decoder |
| JsonParser.ParseValueSound | constrained.go:785-823 | what the value parser returns is well formed, within the depth, and prints back to exactly the bytes taken |
| JsonParser.ParseValueOf | constrained.go:785-823 | every well-formed value within the depth is parsed from its text, with any delimited tail |
| JsonDecode.DecodeText | constrained.go:825-833 | decoding the text of a value yields that value |
| JsonString.QuoteDecodes | constrained.go:446 | a string quoted as json.Marshal does decodes to itself |
| JsonString.UnquoteShrinks | constrained.go:825-833 | a decoded string is never longer than its raw form, and a newline costs one byte more |
| JsonLayout.StrictOfTree | constrained.go:785-823 | the strict reader on the text of a syntax tree |
| CredentialInput.ReadCredentials | credentials.go:62-102 | the second hand-written reader accepts exactly what the strict reader accepts with both fields non-empty strings, with equal values |
| Plan.ParsedPlanIsValid | constrained.go:702-779 | a parsed plan has a valid region, canonical addresses, a valid name and a port in range |
| Plan.PlanIgnoresWhitespace | constrained.go:702-779 | whitespace between tokens at either level does not change the plan read |
| PlanPrint.PlanRoundTrip | constrained.go:702-779 | every valid plan, printed, parses to itself |
| PlanPrint.PlanLayoutRoundTrip | constrained.go:702-779 | and so does any text that differs from the print in whitespace |
| AnswerPrint.AnswerRoundTrip | constrained.go:1108-1138 | every printable add-key answer, printed, parses to itself |
| AnswerPrint.TokenRoundTrip | constrained.go:1090-1106 | every token within the rules, printed, parses to itself |
| AnswerPrint.LoginRoundTrip | credentials.go:62-102 | all credentials of valid UTF-8 with neither part empty, written down, are read back |
| AnswerPrint.LoginsAreText | credentials.go:62-102 | and no others are ever read |
| DecodedUtf8.DecodedStringsAreValid | constrained.go:825-833 | a string decoded from an accepted object is valid UTF-8, so the test after decoding never fails |
| Argv.ReadArgs | constrained.go:210-256 | the scanner with its index and maps returns what the function says, error kind included |
| Argv.ArgvExact | constrained.go:210-270 | accepted with these values exactly when it is an interleaving of the six flags once each and an optional mark, in the accepted spellings |
| Argv.ReadRequested | constrained.go:182-194 | the mode scanner as written |
| Argv.ReadRepeats | constrained.go:564-584 | the duplicate scanner as written |
| Argv.RequestedUnless | constrained.go:182-194 | on an accepted command line the mode is missed exactly when a loose mark value -- hides it |
| Argv.RepeatsExact | constrained.go:564-584 | on an accepted command line a repeat is reported exactly when a loose mark value looks like a long flag that occurs |
| Argv.ScannersAgree | constrained.go:182-256 | so all three scanners agree if the mark value does not begin with -- |
| SocketMark.MarkExact | socket_mark.go:36-66 | exactly the decimal print and the 0x spellings of 1 to 2^32-1 are accepted, each with its value |
| SocketMark.HexSpellings | socket_mark.go:36-66 | hex spellings of one value differ only in prefix case, digit case and leading zeros |
| SocketMark.AccumulateUint32 | socket_mark.go:58-61 | digit-by-digit accumulation in 64 bits never wraps before the range test |
| Ipv4.ValidIPv4Exact | constrained.go:1279-1282 | exactly the canonical dotted quads are accepted, whatever the IPv6 parser does |
| Ipv4.ValidIPv4Unique | constrained.go:1279-1282 | an accepted text denotes one address |
| AnswerRules.ValidateExact | constrained.go:1140-1175 | exactly which answers pass validation, with addresses as canonical dotted quads |
| AnswerRules.PeerIPExact | constrained.go:1177-1183 | exactly which peer addresses are accepted, in terms of dotted quads and of what the IPv6 parser maps to IPv4 |
| AddKey.ReuseIsExact | constrained.go:413-417 | after parsing and validation the string test rejects exactly the excluded address and port |
| ConfigSize.BodyLength | constrained.go:1108-1175 | an accepted answer spends 170 bytes besides the values that reach the config |
| ConfigSize.ConfigLength | constrained.go:1214-1223 | the config has 169 fixed bytes with the private key |
| ConfigSize.ConfigFits | constrained.go:422-425 | the config fits 64 KiB; it is shorter than the answer with a prefix length, and at most two bytes longer with a bare address |
| ConfigReading.ConfigReadsBack | constrained.go:1192-1223 | the rendered config reads back as the tunnel it describes exactly when key and address have no newline |
| ConfigReading.NewlineKeyIsValid | constrained.go:1144-1146 | and validation does not exclude a newline in the key |
| Records.SuccessRecordFits | constrained.go:446-452 | every success record and newline fit 4096 bytes, even if every byte of the name is escaped |
| Records.FailureRecordFits | constrained.go:456-473 | every failure record and newline fit |
| RecordReading.SuccessReads | constrained.go:99-109 | the success record reads back to the values chosen, with a gateway just when ports are forwarded |
| RecordReading.FailureReads | constrained.go:92-97 | the failure record reads back to its class, and to its detail just when there is one |
| RecordReading.RecordTellsReason | constrained.go:111-152 | distinct reasons have distinct records |
| Failure.DetailsAreSafe | constrained.go:1059-1070 | every detail passes the filter unchanged and has 1 to 32 bytes |
| Retry.StripExact | pia/serverlist.go:52-58 | the data is the longest part of the body ending in a brace, and there is none exactly if there is no brace |
| Retry.TailStripped | pia/serverlist.go:52-58 | an object followed by a tail without braces comes back as the object |
| Retry.RetriedReplies | pia/serverlist.go:71-95 | unfolds the definitions: exactly which replies are worth another attempt |
| Retry.FetchWithRetry | pia/serverlist.go:99-135 | for every script and limit: the first reply not worth retrying among the limit, that many fetches, the table's pauses and none after the last |
| Retry.FetchesUnique | pia/serverlist.go:99-135 | that contract determines the number of fetches |
| Retry.TotalPause | pia/serverlist.go:32 | giving up after n attempts, six or more, has slept 67 + 30 (n - 6) seconds |
| CachePolicy.ServerListCache.FetchWithPolicy | pia/serverlist.go:241-332 | one call as written: what it returns, what it does to the cache and when |
| CachePolicy.StepSound | pia/serverlist.go:241-332 | every call keeps the order of fetches, their spacing and the provenance of the cache |
| CachePolicy.FetchesAreSpaced | pia/serverlist.go:294-331 | for any calls and options, after a fetch that was written the next unforced one is decided on more than a ttl later |
| CachePolicy.FewFetchesInAWindow | pia/serverlist.go:294-331 | k successful fetches in a window W need (k-1) ttl < W |
| CachePolicy.ServedDataIsKnown | pia/serverlist.go:271-331 | whatever is returned came from some fetch or the initial cache, and from the cache it is at most the larger of ttl and maximum age old at the decision |
| CachePolicy.NetworkExactly | pia/serverlist.go:296-331 | unfolds the definition: exactly when a copy is served fresh, served stale, or refused |
| CachePolicy.StaleAgeExactly | pia/serverlist.go:319-327 | a copy in the stale window is within its maximum age on return, in every world within a latency, exactly if there is room for that latency and all pauses |
| CachePolicy.DefaultStaleAge | pia/serverlist.go:319-327 | with the default options and instant fetches, exactly if it is at least 67 seconds younger than a week at the decision |
| CachePolicy.StaleIsReturnedLate | pia/serverlist.go:319-327 | unfolds the definition: a stale copy is returned only after all attempts and pauses |
| CachePolicy.MaxAgeExceededOnReturn | pia/serverlist.go:319-327 | an instance: a call that returns a copy beyond its maximum age |
| CacheFile.AtomicStep | pia/serverlist.go:154-193 | every step, failure, crash and power loss keeps the path whole |
| CacheFile.PathIsAtomic | pia/serverlist.go:154-193 | the path holds what it held or one finished writer's complete data; a writer that failed or died never had a file there |
| CacheFile.Directory.WriteCache | pia/serverlist.go:154-193 | success puts all the data at the path, any error leaves the path unchanged |
| CacheFile.AgesNeverUnderstated | pia/serverlist.go:139-149 | if no rename brings an older file, a reader that stats and then reads never understates an age |
| CacheFile.DisorderIsSeen | pia/serverlist.go:139-149 | and if one does, some reader understates it |
| CacheFile.ReadersAreSafe | pia/serverlist.go:139-193 | so with writers that do not overlap readers never understate |
| CacheFile.OverlapMisleads | pia/serverlist.go:139-193 | and with writers that overlap a reader may, by any amount |
| Regions.Generate | pia/pia.go:219-272 | each id has the in-order concatenation of the servers of its kept entries, keys exist just for non-empty lists, the total is conserved, and it fails exactly when there is nothing |
| Regions.PiaClient.Populate | pia/pia.go:102-120 | a client is created exactly when some kept entry has a metadata server and the region has a WireGuard server |
| Regions.PiaClient.WireguardServer | pia/pia.go:195-200 | for a created client the first WireGuard server of the region is there |
| Regions.PiaClient.MetadataServer | pia/pia.go:202-207 | the first metadata server is there exactly when the region lists one |
| Regions.ListedExactly | pia/pia.go:222-261 | a region lists a server exactly when a kept entry with its id has one |
| Regions.MetadataMayBeMissing | pia/pia.go:202-207 | a list for which a client is created and the metadata index is out of bounds |

## Left out

- X.509, TLS, DNS, HTTP framing and `pem.Decode`: the certificate verdicts, the transport's dials and the answers are part of the environment script.
- The IPv6 half of `net.ParseIP`, what the URL parser makes of a host with a bracket in it, and whether a host with bytes beyond ASCII can be written into a request: parameters of the model, arbitrary in every theorem. Releases of the standard library differ in the second.
- `net/url` beyond what the add-key URL can hold: user information, ports and escapes in paths.
- Encoding of the token form: the trace records the user name and the password.
- The error of building the token request, whose URL is a constant.
- RunSafety.RefusedTokenMark: which error the transport returns when a dial has failed is part of the script; the exact reason is stated for scripts that deliver the error of the dial that opened the socket.
- RunSafety.RefusedAddKeyMark: the same.
- Descriptors, their validation and closing, and the fallback goroutines of the bounded reads and writes: a read or write finishes within its timeout with some result. `openConstrainedFiles` is taken to have succeeded.
- The command line framework: a run starts from the arguments that the raw scanner accepted; the incompatible-flag checks repeat what that scanner has already refused.
- Local computation takes no time, and the clock of the gates and the deadline of the context start at the same instant.
- WireGuard key generation: an abstract pair of 44-byte prints, or a failure. `wgtypes.ParseKey` is the test that 44 characters of base64 with one pad remain once newlines are skipped.
- The JSON decoder beyond what the readers use: numbers are decoded into integers only, and its buffering is not modelled, only its position.
- StrictJson.Decoder.NextToken: nothing is said of where the decoder is after a token that is neither a brace nor a key, since both readers give up there.
- The server list's own JSON, `ListRegions` and its sorting, and the ordinary generation path in `pia/wg.go` and `pia/metadata.go`: straight-line code that would add easy members.
- CacheFile.Directory.WriteCache: one writer alone, while interleavings with other processes are in `CacheFile.Action`.
- CachePolicy.ServerListCache.FetchWithPolicy: other processes do not touch the cache during the calls modelled, and one call reads it in one step.
- CacheFile.PathIsAtomic: the directory entry itself may fall back after a power loss to any earlier file, which is as much as the code promises without syncing the directory.
