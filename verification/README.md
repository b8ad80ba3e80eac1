# Azure guest proxy agent: a verified model

The guest proxy agent sits between the processes of a virtual machine and the host's metadata endpoints. It
latches a signing key with the host, redirects connections to those endpoints to itself with an eBPF program,
finds out who connected, decides by role-based rules whether the request may pass, signs it and relays it. An
extension beside it watches the agent's health, and both write telemetry and rolling logs.

This project models those parts of the agent and proves what they are for. Each module follows one source file
or one protocol:

| module | what it models | main results |
|---|---|---|
| `KeyKeeper`, `KeyPoll` | the key latch protocol under lost messages, torn writes, restarts and host resets; the rule cache; the polling loop as a refinement of the protocol's steps | `HostAndDiskAgree`, `SpoilingBreaksAgreement`, `NextPollRecovers`, `CacheAgreesExactly` |
| `Ebpf`, `Redirector`, `Authentication` | the two kernel hooks, their shared maps under any interleaving and eviction, and the way back from a source port to an authenticator | `Attribution`, `LeftoverEntryMisattributes`, `RunKeepsSound`, `ConnectionFindsItsEndpoint` |
| `Headers`, `Request`, `SignedRoundTrip`, `ProxiedRequest`, `SignatureCoverage`, `SignedCollision` | parsing, printing and the canonical signature input of a request | `CanonicalDeterminedBySigned`, `BodyShift`, `ProxiedRequestArrivesSigned`, `SigInputDetermines` |
| `AuthorizationRules`, `AuditMode` | compiling role assignments to flat rules, evaluating them, audit and enforce mode | `CompilationPreservesMeaning`, `DecisionIgnoresListOrder`, `AuditPredictsEnforce` |
| `ContinueRelay` | relaying a request with `Expect: 100-continue`, signed and unsigned | `SignedClientSees`, `SignedHostGets`, `UnsignedClientSees`, `UnsignedHostGets` |
| `Telemetry`, `Batching`, `EventReader`, `EventPipeline`, `StateEvents` | event XML, greedy batches, the queue-to-file-to-sender pipeline, rate-limited state events | `CdataEndsOnce`, `BatchesFewest`, `EventsAreConserved`, `EmittedIsBudget` |
| `RollingLogger` | the rolling log under file system failures | `RollingLogger.Run`, `RollingLogger.WriteLine` |
| `ProxyPool` | the worker pool, every interleaving of submitters, workers and drop | `DropWaits`, `DropReturns`, `DropIsBounded` |
| `StatusState` | the extension's status state and monitor loop | `StateIsHistory`, `Monitor.Run` |

`Prelude` and `Text` hold shared definitions: options, sequences, ASCII case and trimming, UTF-8 lengths, string
order and decimal numbers.

`dafny verify dfyconfig.toml` checks the whole project.

## Where the code departs from what one would expect

Each of these is kept as the code has it, with a lemma that shows it and the exact condition.

- A request head with a character outside ASCII costs the body as many characters as the head has extra bytes,
  because offsets found in bytes are used to count characters (`BodyShift`).
- A binary body of a client that does not expect a 100 is not sent, on the signed path though it is signed
  (`SignPrintParse`, `SignedHostGets`, `UnsignedHostGets`), and an unsolicited 100 from the host makes the agent send
  a text body twice.
- On the signed path a Content-Length that does not parse earns a 400 and then the host's answer as well
  (`SignedClientSees`).
- On the unsigned path a second 100 from the host is passed on as if it were the answer (`UnsignedClientSees`).
- Both hooks file the upper half of `bpf_get_current_uid_gid`, which is the group id; the program calls it a user
  id and flags 0 as root (`IdentityExactly`, `GroupDecidesRoot`, `ConnectionFindsItsEndpoint`).
- A local map entry left over from a redirected connect that never reached the probe is charged to the thread's
  next connection that does not replace it, wherever that goes (`LeftoverEntryMisattributes`, `LeftoverExample`).
- A connection that was not filed is looked up all the same, and the record of whoever used its source port before is
  taken for its own (`LookupAfterConnect`, `LookupFindsOwnRecord`).
- Host and disk can disagree after a write that spoils the key file of a latched key or of an attestation still
  under way (`SpoilingBreaksAgreement`, `DelayedAttestationBreaksAgreement`), and an agent that holds another key
  under the host's guid keeps it (`NextPollRecovers`, `ReusedGuidLeavesStaleKey`).
- The rule cache is stale exactly when rules changed under an unchanged id, or came first with an empty id
  (`CacheAgreesExactly`).
- The comment above `as_sig_input` (proxy_agent/src/common/http/request.rs:228-234) writes the body in hex and a
  line feed after the headers; the code lays down the raw body, and each header line brings its own line feed. The
  model follows the code. So header lines can be read as the end of a longer body, and two requests can share a
  signature input (`HeadersReadAsBody`, `ProxiedCollision`, `CollisionExample`); they cannot when Content-Length gives the
  length of the body (`SigInputExactly`, `SigInputDetermines`), but bytes past it in the same chunk are kept
  (`OverrunIsKept`).
- Query names and values are decoded before they are joined with `=` and `&`, so one parameter can read as two
  (`ParameterCollision`, `ParametersDetermined`).
- A rule with an upper-case letter in its path never matches (`MatchableExactly`). One with such a letter in a parameter
  name matches only requests that percent-encode the letter, since the request is lower-cased before it is decoded.
- A listing that fails at the maximum lets the number of event files pass it (`BlindListingPassesLimit`).
- Event files left half-written are never removed, and enough of them stop the telemetry for good
  (`BrokenFilesStay`, `BrokenFilesChoke`).
- A message longer than 4096 bytes makes its writer panic when byte 4096 lies inside a character
  (`CutMessageExactly`).
- A roll that fails after the rename leaves the logger silent until the process restarts
  (`RollingLogger.WriteLine`, `RollingLogger.Run`).
- With every worker ended by a panic a queued job is never run, a later one is lost without notice, and drop returns
  (`DropWaits`, `PanicsStrandJob`).
- An install attempt counts as a failed outcome even when it succeeded (`Monitor.InstallIfChanged`).

## Model

| member | source | states |
|---|---|---|
| `KeyKeeper.StepKeepsInvariant` | proxy_agent/src/key_keeper.rs:202-316 | every single interaction with host or disk, and every loss, delay of any length, restart or host reset between them, keeps the protocol invariant; so does every write but a spoiling one, after which the disk lacks the latched key or one on its way to the host |
| `KeyKeeper.RunKeepsInvariant` | proxy_agent/src/key_keeper.rs:202-316 | the invariant holds in every state reached without a spoiling write |
| `KeyKeeper.HostAndDiskAgree` | proxy_agent/src/key_keeper.rs:202-316 | in every run without a spoiling write, however long messages are delayed, a latched host's guid names a key file with exactly its key; and if a guid names one key, a current key with that guid is that key |
| `KeyKeeper.OnlyTornWritesSpoil` | proxy_agent/src/key_keeper.rs:284-291 | if a guid names one key, only a write that tears the file can spoil |
| `KeyKeeper.SpoilingBreaksAgreement` | proxy_agent/src/key_keeper.rs:261-316 | the first spoiling write is exactly where agreement is lost: after a step, some run without further writes ends in disagreement if and only if the step was a spoiling write |
| `KeyKeeper.SpoiledThenBroken` | proxy_agent/src/key_keeper.rs:261-316 | how: at once, or when the attestation it spoiled reaches an unlatched host |
| `KeyKeeper.SettledRunsAgree` | proxy_agent/src/key_keeper.rs:202-316 | runs in which every attestation has arrived or is lost before the next status never spoil, and so agree |
| `KeyKeeper.NextPollRecovers` | proxy_agent/src/key_keeper.rs:202-255 | once the host is latched, the next undisturbed poll with a non-disabled status, even after lost replies and restarts, ends with the host's key current exactly unless the agent already holds another key under the host's guid |
| `KeyKeeper.UniqueGuidsRecover` | proxy_agent/src/key_keeper.rs:202-255 | if a guid names one key, that poll always ends with the host's key current |
| `KeyKeeper.DelayedAttestationBreaksAgreement` | proxy_agent/src/key_keeper.rs:261-316 | a run with an attestation delivered late, after which the host is latched on a key the disk does not hold |
| `KeyKeeper.ReusedGuidLeavesStaleKey` | proxy_agent/src/key_keeper.rs:207-255 | a run with a reused guid after which a completed poll leaves another key than the host's current |
| `KeyKeeper.RestartForgets` | proxy_agent/src/key_keeper.rs:25-36 | a restarted agent has no key and knows no channel, while disk and host stay |
| `KeyPoll.Validate` | proxy_agent/src/key_keeper/key.rs:400-463 | accepts exactly the statuses that give a channel flag or a channel state, a known state if they give one, and the one their version requires; an unknown scheme or delivery method is no reason to refuse |
| `KeyPoll.ValidByVersion` | proxy_agent/src/key_keeper/key.rs:400-463 | what each version of a status demands: 1.0 a known state, 2.0 the flag and no unknown state, any other the flag or a known state |
| `KeyPoll.ChannelOffExactly` | proxy_agent/src/key_keeper/key.rs:465-520 | exactly which accepted statuses turn the secure channel off, per version |
| `KeyPoll.ChannelNamesModes` | proxy_agent/src/key_keeper/key.rs:465-520 | the state of an enabled channel names the mode of each endpoint's own rules, and that of version 1.0 is the one reported, in lower case |
| `KeyPoll.CacheHoldsRunStart` | proxy_agent/src/key_keeper.rs:149-200 | after every history the installed rules are those of the first status of the last run of equal rule ids, or none for an empty id from the start |
| `KeyPoll.CacheAgreesWithRecompiling` | proxy_agent/src/key_keeper.rs:149-200 | if an id determines its rules and present rules have an id, the installed rules equal those compiled afresh from the latest status |
| `KeyPoll.CacheAgreesExactly` | proxy_agent/src/key_keeper.rs:149-200 | for every history, exactly when the cache agrees with recompiling |
| `KeyPoll.RulesComeFromOwnHalf` | proxy_agent/src/key_keeper/key.rs:522-554 | over every sequence of statuses, if an id determines its rules and present rules have an id, each endpoint's installed rules are those of its own half of the latest status, compiled |
| `KeyPoll.Poller.UpdateRules` | proxy_agent/src/key_keeper.rs:149-200 | both installed rule sets change exactly when their reported id changes |
| `KeyPoll.Poller.PollOnce` | proxy_agent/src/key_keeper.rs:149-339 | one turn of the loop, whatever is still under way before and after it, leaves exactly the key, channel, files and host that the answers of host and disk call for, is a run of the protocol's steps, and refreshes the rule caches once per fetched status |
| `KeyPoll.Poller.AcquireAndAttest` | proxy_agent/src/key_keeper.rs:261-315 | a key the host gives is written under its guid and read back before it is attested; without one nothing changes; and all of it is a run of the protocol's steps |
| `KeyPoll.Poller.AttestKey` | proxy_agent/src/key_keeper.rs:283-314 | for a request that is acknowledged, lost, unanswered or still under way, what becomes of key, channel and host, as a run of the protocol's steps; the key becomes current only by an acknowledged attestation |
| `KeyPoll.FirstLatch` | proxy_agent/src/key_keeper.rs:207-321 | an unlatched host's key is saved under its guid, and becomes current, and the host latched on it, by an acknowledged attestation; each failed write or attestation leaves exactly what had been done until then |
| `KeyPoll.LatchedAgain` | proxy_agent/src/key_keeper.rs:207-321 | a latched host's key whose file is gone or torn is written back, and made current by an acknowledged attestation |
| `KeyPoll.OtherTurns` | proxy_agent/src/key_keeper.rs:149-255 | without an accepted status, or a key when one is needed, nothing changes; with the channel off or the guid current, only the channel; and a readable file under the reported guid makes its key current |
| `Ebpf.Kernel.UpdateLocalMapEntry` | linux-ebpf/ebpf_cgroup.c:63-94 | files the caller's pid, the upper half of its uid_gid with a root flag for 0, and the asked-for destination under its thread, unless the process is skipped |
| `Ebpf.Kernel.Connect4` | linux-ebpf/ebpf_cgroup.c:96-141 | a connect to a policy destination by a process that is not skipped is filed and rewritten in place; any other is left alone |
| `Ebpf.Kernel.TcpConnect` | linux-ebpf/ebpf_cgroup.c:144-246 | moves the thread's local entry to the audit map, or files a direct connection to a policy destination |
| `Ebpf.OthersKeepLocalEntry` | linux-ebpf/ebpf_cgroup.c:63-246 | whatever other threads' hooks do, in any number and order, the entry a thread will consume and the configuration stay as they are |
| `Ebpf.Attribution` | linux-ebpf/ebpf_cgroup.c:63-212 | between the two hooks of a thread any steps of others may fall, and the audit entry for its source port still holds the upper halves of its pid_tgid and uid_gid, with a root flag for 0, and the destination asked for before rewriting; the local entry is consumed |
| `Ebpf.ProcessAttribution` | linux-ebpf/ebpf_cgroup.c:63-212 | whichever thread of a process connects, the entry holds the process and the group id |
| `Ebpf.SkippedProcessUntouched` | linux-ebpf/ebpf_cgroup.c:48-60 | all threads of a skipped process are left alone by both hooks, whatever they connect to |
| `Ebpf.RewrittenExactly` | linux-ebpf/ebpf_cgroup.c:96-135 | any other process is sent to the policy's target exactly when it asks for a policy destination |
| `Ebpf.DirectConnection` | linux-ebpf/ebpf_cgroup.c:213-244 | a connection no connect hook filed is filed for the probing thread's process and group id exactly when it goes to a policy destination over IPv4 |
| `Ebpf.IdentityExactly` | linux-ebpf/ebpf_cgroup.c:73-78 | the id filed is the user id exactly when user and group id agree, and the root flag is right exactly when both are 0 or both are not |
| `Ebpf.GroupDecidesRoot` | linux-ebpf/ebpf_cgroup.c:73-78 | user 1000 in group 0 is filed as root, and root in group 1000 is not |
| `Ebpf.FiledAfterConnect` | linux-ebpf/ebpf_cgroup.c:96-246 | what the probe files after a connect and any steps of others: the connect's own entry if stored, else a leftover, else a direct connection to a policy destination |
| `Ebpf.AuditEntryStays` | linux-ebpf/ebpf_cgroup.c:144-246 | an audit entry stays as filed until a probe files under its key or it is evicted |
| `Ebpf.LeftoverEntryMisattributes` | linux-ebpf/ebpf_cgroup.c:96-246 | for every policy, outcome of the store and interleaving, a TCP connection is filed under another destination than the one asked for exactly when the connect left no entry of its own, being not redirected or not stored, and the thread has an unconsumed entry for another destination, or none and was redirected into the policy again; and exactly when it is filed at all |
| `Ebpf.OnlyLeftoversMisattribute` | linux-ebpf/ebpf_cgroup.c:96-246 | with redirect targets outside the policy a leftover is the only way to a wrong destination |
| `Ebpf.LeftoverExample` | linux-ebpf/ebpf_cgroup.c:63-246 | a run of three hooks that produces such a wrong attribution |
| `Ebpf.RunKeepsSound` | linux-ebpf/ebpf_cgroup.c:96-246 | in every reachable state each local and audit entry names a policy destination over TCP and a process that is not skipped, with the root flag exactly when the stored id is 0 |
| `Redirector.SwapBytesInvolution` | proxy_agent/src/common/http.rs:272-278 | converting a port to network order and back gives the port |
| `Redirector.SwapBytesExchanges` | proxy_agent/src/common/http.rs:272-278 | the two bytes of a port change places |
| `Redirector.StringToIp` | proxy_agent/src/redirector.rs:194-223 | reads a dotted quad as the number of its bytes, lowest first, and anything else as 0 |
| `Redirector.NotAQuad` | proxy_agent/src/redirector.rs:194-223 | anything but four numbers up to 255 between dots reads as 0 |
| `Redirector.QuadRoundTrip` | proxy_agent/src/redirector.rs:169-223 | printing any 32-bit address and reading it back gives the address |
| `Redirector.IpToStringInjective` | proxy_agent/src/redirector.rs:169-192 | different addresses print differently |
| `Authentication.UpdatePolicyMap` | proxy_agent/src/redirector/linux.rs:237-319 | the policy map holds only the three host endpoints, all of them when every insert succeeds, each redirected to the local proxy address, and no target is redirected itself unless that address is an endpoint |
| `Authentication.LookupNamesEndpoint` | proxy_agent/src/redirector/linux.rs:466-481 | every record found in a reachable state names an endpoint of the policy map and a process outside the skip map, and is elevated exactly when its id is 0 |
| `Authentication.LookupSelectsEndpoint` | proxy_agent/src/proxy/proxy_authentication.rs:266-278 | every record found in a reachable state, decoded to text and host order, selects the WireServer, GAPlugin or IMDS authenticator of the endpoint the record names, never Default or ProxyAgent |
| `Authentication.DispatchExactly` | proxy_agent/src/proxy/proxy_authentication.rs:266-278 | exactly which address and port gets which authenticator |
| `Authentication.ConnectionFindsItsEndpoint` | proxy_agent/src/proxy/proxy_listener.rs:171-230 | a thread connects to an endpoint and others run between and after its hooks; looking up its port then finds its process, the endpoint it connected to and that endpoint's authenticator, and elevation exactly for group id 0 |
| `Authentication.LookupAfterConnect` | proxy_agent/src/redirector/linux.rs:466-481 | what a lookup finds for every connection, filed or not: its own record if both stores succeeded, else a leftover's, else what the port's last user left |
| `Authentication.LookupFindsOwnRecord` | proxy_agent/src/redirector/linux.rs:466-481 | the record found is that of the connect just made exactly when both stores succeeded for a redirected connect, or what is found instead is the same |
| `Headers.Headers.AddHeader` | proxy_agent/src/common/http/headers.rs:64-73 | stores under the lower-cased name, replacing what was there |
| `Headers.Headers.AddHeaderLine` | proxy_agent/src/common/http/headers.rs:48-62 | a line without a colon changes nothing; else the trimmed sides of the first colon are stored |
| `Headers.Headers.FromRawData` | proxy_agent/src/common/http/headers.rs:35-46 | the map of all non-empty lines, later ones replacing earlier |
| `Headers.Headers.ToCanonicalizedString` | proxy_agent/src/common/http/headers.rs:75-90 | the canonical string, whatever order the hash map yields its keys in |
| `Headers.Headers.ToRawString` | proxy_agent/src/common/http/headers.rs:92-106 | each header once, in some order |
| `Headers.CanonicalDeterminedBySigned` | proxy_agent/src/common/http/headers.rs:75-90 | equal sets of lower-cased names with trimmed values, authorization aside, give equal canonical strings, and different sets different strings when names have no colon and nothing has a line feed |
| `Headers.AuthorizationIgnored` | proxy_agent/src/common/http/headers.rs:75-90 | attaching the authorization header does not change what is signed |
| `Headers.CanonicalArrivalFree` | proxy_agent/src/common/http/headers.rs:48-90 | arrival order, name case and white space around values do not change the canonical string |
| `Headers.ExpectAfterAdd` | proxy_agent/src/common/http/headers.rs:112-121 | a 100 is expected exactly when the last header of that name, in any case, has just that value |
| `Headers.LengthAfterAdd` | proxy_agent/src/common/http/headers.rs:132-146 | the length is that of the last header of that name, if it parses, and 0 without one |
| `Text.ParseExactly` | proxy_agent/src/common/http/headers.rs:136-142 | a text yields a number exactly when it is that number in decimal, after an optional plus sign and any zeros, and not too large |
| `Text.BeforeExactly` | proxy_agent/src/common/http/headers.rs:75-90 | one key sorts before another exactly when it is a proper prefix or has the lower character where they first differ |
| `Request.Request.FromRawRequest` | proxy_agent/src/common/http/request.rs:55-126 | parses head and body, and fails exactly when the first line has fewer than three words |
| `Request.Request.RawStringWithoutBody` | proxy_agent/src/common/http/request.rs:146-162 | the printed head for some header order |
| `Request.Request.AsSigInput` | proxy_agent/src/common/http/request.rs:235-248 | the signature input of the request as it is |
| `Request.Request.UrlPathAndCanonicalizedParameters` | proxy_agent/src/common/http/request.rs:188-226 | path and parameters of the URL, parsed alone or against the local base, or the URL itself when neither parses |
| `Request.Request.CanonicalizedParameters` | proxy_agent/src/common/http/request.rs:201-226 | lower-cased query names, the last of equal names kept, in ascending order |
| `Request.ParameterMapKeepsLast` | proxy_agent/src/common/http/request.rs:203-211 | the parameters signed are, for each lower-cased query name, the value of the last pair with that name, and no others |
| `SignatureCoverage.EncodeInjective` | proxy_agent/src/common/http/request.rs:235-248 | different texts have different UTF-8 bytes, so a part that is determined as bytes is determined as text |
| `SignatureCoverage.SigInputExactly` | proxy_agent/src/common/http/request.rs:235-248 | requests without line feeds in method, path and parameters have the same signature input exactly when those agree and body, line feed and canonical headers laid end to end are the same bytes |
| `SignatureCoverage.SigInputDetermines` | proxy_agent/src/common/http/request.rs:188-248 | requests whose Content-Length is the length of their body, whatever the bodies, have the same signature input exactly when method, body, canonical headers, path and parameter text all agree; then their signed headers agree, and their parameters do when no name holds `=` or `&` and no value `&` |
| `SignatureCoverage.PathIsSigned` | proxy_agent/src/common/http/request.rs:188-248 | requests with the same signature input name the same method and path, whether both URLs parse, only join, or do neither, when the URLs themselves agree |
| `SignatureCoverage.HeadersReadAsBody` | proxy_agent/src/common/http/request.rs:235-248 | a request shares its signature input with one that carries its first signed header lines at the end of its body instead |
| `SignatureCoverage.FirstHeaderReadsAsBody` | proxy_agent/src/common/http/request.rs:235-248 | so does every request with its first signed header |
| `SignatureCoverage.ParametersDetermined` | proxy_agent/src/common/http/request.rs:203-222 | parameters without separators in names and values can be read back from their canonical text |
| `SignatureCoverage.ParameterCollision` | proxy_agent/src/common/http/request.rs:188-226 | two requests that differ only in a query parameter whose decoded value reads as a further parameter share their signature input |
| `SignedCollision.ProxiedCollision` | proxy_agent/src/proxy/proxy_listener.rs:252-288 | with the claims and date headers the agent adds, a client header that sorts before all others can still be read as the end of the body |
| `SignedCollision.CollisionExample` | proxy_agent/src/proxy/proxy_listener.rs:252-288 | two requests the agent signs alike, with different bodies, the same Content-Length, and bodies the receive loop yields from one chunk |
| `SignedRoundTrip.LinesOfJoined` | proxy_agent/src/common/http/headers.rs:35-46 | splitting into lines undoes joining |
| `SignedRoundTrip.AddPrintedLine` | proxy_agent/src/common/http/headers.rs:48-106 | reading a printed header line stores the same name and the trimmed value |
| `SignedRoundTrip.BodyShift` | proxy_agent/src/common/http/request.rs:92-105 | the parsed body is the printed one without as many leading characters as the head has extra UTF-8 bytes; it survives exactly when the head is ASCII or there is no body |
| `SignedRoundTrip.ParsePrinted` | proxy_agent/src/common/http/request.rs:92-162 | with an ASCII head, parsing a printed request in any header order gives it back with trimmed values and the printed body |
| `SignedRoundTrip.SignPrintParse` | proxy_agent/src/proxy/proxy_listener.rs:285-328 | sign, attach, print in any order, parse: the parsed request has the signature input that was signed exactly when no 100 is expected and the body is UTF-8, or there is no body |
| `ProxiedRequest.ParsedIsWellFormed` | proxy_agent/src/common/http.rs:71-77 | every request parsed from an ASCII head can be printed and read back |
| `ProxiedRequest.ProxiedRequestArrivesSigned` | proxy_agent/src/proxy/proxy_listener.rs:252-328 | a request received with an ASCII head and any body, given the agent's claims and date headers, signed, printed in any order and parsed, has the signature input that was signed exactly when no 100 is expected and the body is UTF-8, or there is no body |
| `AuthorizationRules.PrivilegeIsMatch` | proxy_agent/src/key_keeper/key.rs:190-251 | matches exactly when the path starts with the rule's and every rule parameter has its value in the request, in whatever order the parameters are visited |
| `AuthorizationRules.PathAloneMatches` | proxy_agent/src/key_keeper/key.rs:190-251 | a privilege without parameters matches exactly the lower-cased paths that start with its own |
| `AuthorizationRules.ParameterAloneMatches` | proxy_agent/src/key_keeper/key.rs:190-251 | a parameter asks for its name as written and for its value up to case in the first pair of that name |
| `AuthorizationRules.ParametersMatchTogether` | proxy_agent/src/key_keeper/key.rs:190-251 | all parameters are asked for together |
| `AuthorizationRules.IdentityIsMatch` | proxy_agent/src/key_keeper/key.rs:274-387 | matches exactly when every field the identity names agrees with the claims |
| `AuthorizationRules.OneFieldMatches` | proxy_agent/src/key_keeper/key.rs:274-387 | an identity that names one field alone matches exactly the claims whose own field agrees up to case, for groups some group, and one that names nothing matches everyone |
| `AuthorizationRules.FieldsMatchTogether` | proxy_agent/src/key_keeper/key.rs:274-387 | an identity matches exactly when each of its fields does alone |
| `AuthorizationRules.MatchableExactly` | proxy_agent/src/key_keeper/key.rs:190-251 | some request matches a privilege exactly when its path has no upper-case letter, whatever the names of its parameters |
| `AuthorizationRules.FromAuthorizationItem` | proxy_agent/src/proxy/authorization_rules.rs:37-99 | the loops compute the flat rules that the following lemmas give their meaning |
| `AuthorizationRules.IsAllowed` | proxy_agent/src/proxy/authorization_rules.rs:108-155 | allows exactly by the flat rules: a matching rule with a matching identity grants, a matching rule without one denies, and else the default decides |
| `AuthorizationRules.CompilationPreservesMeaning` | proxy_agent/src/proxy/authorization_rules.rs:37-155 | compiling and evaluating decides every request as the relational reading of assignments, roles, privileges and identities with the default access does |
| `AuthorizationRules.DecisionIgnoresListOrder` | proxy_agent/src/proxy/authorization_rules.rs:37-155 | no decision depends on the order or repetition of any of the four lists |
| `AuditMode.Proxy.AddFailed` | proxy_agent/src/proxy_agent_status.rs:131-146 | raises the count of the summary's key, or opens it at one |
| `AuditMode.Proxy.DecideByRules` | proxy_agent/src/proxy/proxy_authentication.rs:118-149 | a denied request is reported in every mode and let through in audit mode |
| `AuditMode.Proxy.Authenticate` | proxy_agent/src/proxy/proxy_authentication.rs:107-264 | verdict and report of every authenticator, with and without rules |
| `AuditMode.WireServerVerdict` | proxy_agent/src/proxy/proxy_authentication.rs:107-155 | WireServer refuses every process that is not elevated, passes elevated platform processes unreported, and is else decided by its own rules alone once they are enforced |
| `AuditMode.ImdsVerdict` | proxy_agent/src/proxy/proxy_authentication.rs:169-211 | IMDS asks nothing of the process and is decided by its own rules alone once they are enforced |
| `AuditMode.OtherVerdicts` | proxy_agent/src/proxy/proxy_authentication.rs:222-264 | GAPlugin passes elevated processes, only platform ones with support 2; the agent's own address passes nothing; every other address everything; none reports |
| `AuditMode.CompiledVerdict` | proxy_agent/src/proxy/proxy_authentication.rs:107-155 | from the item the host sends to the verdict: enforced it decides as it reads, in audit mode everything passes and what it would deny is reported |
| `AuditMode.CompiledImdsVerdict` | proxy_agent/src/proxy/proxy_authentication.rs:169-211 | the same for IMDS |
| `AuditMode.DenialIsCounted` | proxy_agent/src/proxy/proxy_authentication.rs:126-141 | a denied request is counted once, under its user, client, process and the endpoint that denied it, and under no other key |
| `AuditMode.AddRaisesTotal` | proxy_agent/src/proxy_agent_status.rs:106-146 | every report raises the total count by exactly one |
| `AuditMode.AuditPredictsEnforce` | proxy_agent/src/proxy/proxy_authentication.rs:107-211 | for every request sequence, audit and enforce leave identical failure maps, audit forwards all that enforce forwards, and the map grows by exactly the number of requests on which they differ |
| `ContinueRelay.GatheredShape` | proxy_agent/src/common/http.rs:117-138 | a body loop reads whole chunks from the front, stops at the first that reaches the length, and falls short only when nothing is left |
| `ContinueRelay.ChunkingIsIrrelevant` | proxy_agent/src/common/http.rs:117-138 | a client that sends no more than it declared has its body read exactly, however it is cut up |
| `ContinueRelay.OverrunIsKept` | proxy_agent/src/common/http.rs:117-138 | a chunk that runs past the declared length is kept whole |
| `ContinueRelay.ReceiveBody` | proxy_agent/src/common/http.rs:117-138 | the bytes read and the chunks left for a declared length |
| `ContinueRelay.StreamBody` | proxy_agent/src/common/http.rs:145-169 | writes on the same chunks, up to the first write that fails, and counts their bytes |
| `ContinueRelay.Connection.ForwardResponse` | proxy_agent/src/common/http.rs:184-238 | a 100 is kept back; any other response goes to the client head first, then its body |
| `ContinueRelay.Connection.HandleExpectContinueRequest` | proxy_agent/src/proxy/proxy_listener.rs:386-417 | the client gets its 100 first; then its body becomes the request's, or a bad length earns a 400 |
| `ContinueRelay.Connection.AttachSignature` | proxy_agent/src/proxy/proxy_listener.rs:285-324 | the signature attached is that of the request as it then is |
| `ContinueRelay.Connection.HandleWithSignature` | proxy_agent/src/proxy/proxy_listener.rs:275-384 | everything written and read on the signed path, in order, as the trace the lemmas below are about |
| `ContinueRelay.Connection.StreamRequestBody` | proxy_agent/src/proxy/proxy_listener.rs:448-482 | 100 to the client and its body to the host, or the one error response that ends the request |
| `ContinueRelay.Connection.HandleWithoutSignature` | proxy_agent/src/proxy/proxy_listener.rs:419-510 | everything written and read on the unsigned path, in order |
| `ContinueRelay.SignedClientSees` | proxy_agent/src/proxy/proxy_listener.rs:275-417 | for every host an expecting client sees one 100, first, and then at most one final response exactly when its Content-Length parses or the host gives no answer; another client sees the host's answer alone |
| `ContinueRelay.SignedBodyAfterContinue` | proxy_agent/src/proxy/proxy_listener.rs:354-357 | body bytes follow the request only after the host's own 100 |
| `ContinueRelay.SignatureMatchesSent` | proxy_agent/src/proxy/proxy_listener.rs:285-328 | the authorization value in the request sent is the signature of that request |
| `ContinueRelay.SignedRequestSent` | proxy_agent/src/proxy/proxy_listener.rs:275-328 | the host gets one request: the client's own, with its body as read and the signature of just that request |
| `ContinueRelay.UnsignedRequestSent` | proxy_agent/src/proxy/proxy_listener.rs:430-432 | the host gets the client's request as it is, once |
| `ContinueRelay.SignedHeadsFirst` | proxy_agent/src/common/http.rs:204-237 | no piece of a body reaches the client before a final head |
| `ContinueRelay.UnsignedHeadsFirst` | proxy_agent/src/proxy/proxy_listener.rs:499-507 | the same on the unsigned path, exactly unless the host follows its 100 with another |
| `ContinueRelay.UnsignedAnswers` | proxy_agent/src/proxy/proxy_listener.rs:419-510 | which answer the client gets: 502, 400 or the host's, for every way the exchange can go |
| `ContinueRelay.SignedHostGets` | proxy_agent/src/proxy/proxy_listener.rs:275-417 | exactly when the host gets the signed body, no more and no less; for an expecting client, exactly when it sends its 100 or the body is empty; and that body is what was read for its Content-Length |
| `ContinueRelay.SignedClientGets` | proxy_agent/src/common/http.rs:184-238 | the client gets the body of the response whose head it gets, whole chunks up to its Content-Length, and no other bytes |
| `ContinueRelay.UnsignedClientGets` | proxy_agent/src/proxy/proxy_listener.rs:419-510 | the client gets the body of the response it is given, and no other bytes |
| `ContinueRelay.UnsignedClientSees` | proxy_agent/src/proxy/proxy_listener.rs:419-510 | at most one 100 before the last response head, which is final exactly when the host does not follow its 100 with another |
| `ContinueRelay.UnsignedAfterContinue` | proxy_agent/src/proxy/proxy_listener.rs:448-464 | the client is told to continue, and its body is sent, only after the host's 100 |
| `ContinueRelay.UnsignedHostGets` | proxy_agent/src/proxy/proxy_listener.rs:419-482 | of an expecting client the host gets exactly what is relayed after its 100, a prefix of what the client sent; of another client it gets the request's body exactly when that is text and nothing is relayed, or binary and relayed again; so without a 100 exactly when it is text or empty |
| `Telemetry.ChainIsCharacterwise` | proxy_agent/src/common/helpers.rs:77-83 | the five chained replacements equal one escape per character |
| `Telemetry.UnescapeInverts` | proxy_agent/src/common/helpers.rs:77-83 | the escape has a left inverse |
| `Telemetry.EntitiesExactly` | proxy_agent/src/common/helpers.rs:77-83 | exactly the five characters of XML markup are replaced, each by its own entity |
| `Telemetry.CdataEndsOnce` | proxy_agent/src/telemetry/telemetry_event.rs:113-214 | in the text of every event the only "]]>" is the closing one (section 2.7 of XML 1.0) |
| `Telemetry.FieldUnderName` | proxy_agent/src/telemetry/telemetry_event.rs:113-214 | every name stands in every event exactly once, for its own part of the event |
| `Telemetry.EventShowsField` | proxy_agent/src/telemetry/telemetry_event.rs:113-214 | each field is in the text of its event under its name, escaped if it is text and in decimal if not |
| `Telemetry.PrintedNames` | proxy_agent/src/telemetry/telemetry_event.rs:117-211 | the names as they are printed |
| `Telemetry.EventsInOrder` | proxy_agent/src/telemetry/telemetry_event.rs:18-29 | a document holds its events in order |
| `Telemetry.SizeIsEncoded` | proxy_agent/src/telemetry/telemetry_event.rs:31-33 | the size of a message is counted in bytes, not characters |
| `Telemetry.SizeOfAdded` | proxy_agent/src/telemetry/telemetry_event.rs:18-33 | an event adds exactly its own bytes to the size of a message |
| `Telemetry.TelemetryData.ToXmlText` | proxy_agent/src/telemetry/telemetry_event.rs:18-29 | the document of the events held, in order |
| `Telemetry.TelemetryData.GetSize` | proxy_agent/src/telemetry/telemetry_event.rs:31-33 | the bytes of that document |
| `Telemetry.TelemetryData.AddEvent` | proxy_agent/src/telemetry/telemetry_event.rs:35-37 | the event goes to the end |
| `Telemetry.TelemetryData.RemoveLastEvent` | proxy_agent/src/telemetry/telemetry_event.rs:39-41 | takes back what was added last, if anything |
| `Batching.GreedyIsFewest` | proxy_agent/src/telemetry/event_reader.rs:223-262 | no order-keeping split within a limit has fewer batches than one in which no batch could have taken the next item |
| `Batching.BatchesConserve` | proxy_agent/src/telemetry/event_reader.rs:223-262 | each item is in exactly one batch, in order, or is too large for any |
| `Batching.BatchesFit` | proxy_agent/src/telemetry/event_reader.rs:223-262 | no batch is empty or reaches the limit |
| `Batching.BatchesFewest` | proxy_agent/src/telemetry/event_reader.rs:223-262 | when nothing is oversized, no other split within the limit has fewer batches |
| `Batching.SendingConserves` | proxy_agent/src/telemetry/event_reader.rs:223-262 | what is batched and what is dropped make up the events given |
| `Batching.ReversedAt` | proxy_agent/src/telemetry/event_reader.rs:227-228 | events are taken from the end of the vector |
| `EventReader.Sender.SendDataToWireServer` | proxy_agent/src/telemetry/event_reader.rs:305-308 | an empty batch is not sent |
| `EventReader.Sender.FillBatch` | proxy_agent/src/telemetry/event_reader.rs:226-258 | a batch takes as many events as stay under the limit, and an event too large alone is gone |
| `EventReader.Sender.SendEvents` | proxy_agent/src/telemetry/event_reader.rs:223-262 | terminates, and what is sent is exactly the greedy batching of the events from the end of the vector |
| `EventReader.SendEventsIsGreedyBatching` | proxy_agent/src/telemetry/event_reader.rs:219-262 | every batch is under 64 KiB, an event is dropped exactly when it alone reaches 64 KiB, the rest are sent once each in order, in the fewest batches when none is dropped |
| `EventPipeline.EventQueue.PushEvent` | proxy_agent_shared/src/telemetry/event_logger.rs:208-230 | accepted exactly while the queue is open and below its capacity |
| `EventPipeline.EventQueue.WriteEvent` | proxy_agent_shared/src/telemetry/event_logger.rs:195-231 | queues the message cut at 4096 bytes, refuses it when the queue is closed or full, and panics when the cut falls inside a character |
| `EventPipeline.CutMessageExactly` | proxy_agent_shared/src/telemetry/event_logger.rs:202-207 | a message is queued whole up to 4096 bytes, cut to exactly 4096 beyond, and its writer panics exactly when it is longer and no character boundary lies at byte 4096; never for ASCII |
| `EventPipeline.EventQueue.Drain` | proxy_agent_shared/src/telemetry/event_logger.rs:127-140 | pops as many events as the queue held, in order, as a run of the flusher's pop steps |
| `EventPipeline.EventsAreConserved` | proxy_agent_shared/src/telemetry/event_logger.rs:82-231 | over every interleaving of writers, flusher and reader, starting over whatever event files earlier processes left, each accepted event is in exactly one of queue, flusher, file, reader, sender, or dropped by the file limit, a failed write or the size limit; the flusher exits only with the queue closed and empty |
| `EventPipeline.ListExactly` | proxy_agent_shared/src/telemetry/event_logger.rs:142-160 | a batch is dropped at the limit exactly when a listing shows the directory at its maximum |
| `EventPipeline.WriteExactly` | proxy_agent_shared/src/telemetry/event_logger.rs:162-185 | a write stores the whole batch, or the batch is lost unwritten |
| `EventPipeline.OthersDropNothing` | proxy_agent_shared/src/telemetry/event_logger.rs:101-140 | no other step of writers, flusher or reader drops an event, but the reader's for its size |
| `EventPipeline.HandOverExactly` | proxy_agent/src/telemetry/event_reader.rs:197-217 | the reader hands over all events of a file but those too large by themselves |
| `EventPipeline.QueueBecomesFile` | proxy_agent_shared/src/telemetry/event_logger.rs:101-186 | below the maximum the flusher can always turn the whole queue into one file, in order |
| `EventPipeline.StopEndsFlusher` | proxy_agent_shared/src/telemetry/event_logger.rs:101-189 | once told to stop it can always write what is queued and exit |
| `EventPipeline.FileIsSent` | proxy_agent/src/telemetry/event_reader.rs:197-217 | the reader can always send a readable file and remove it |
| `EventPipeline.FileCountBounded` | proxy_agent_shared/src/telemetry/event_logger.rs:142-187 | unless a listing fails while the directory is at its maximum, the flusher never takes the number of event files past it |
| `EventPipeline.BlindListingPassesLimit` | proxy_agent_shared/src/telemetry/event_logger.rs:142-187 | from every state within the bound a step makes it possible to pass the maximum without another failed listing at the limit exactly when it is such a listing |
| `EventPipeline.BrokenFilesStay` | proxy_agent/src/telemetry/event_reader.rs:197-217 | the reader never removes a file it cannot read |
| `EventPipeline.BrokenFilesChoke` | proxy_agent_shared/src/telemetry/event_logger.rs:142-187 | once as many files are broken as the directory may hold, no file is written again as long as no listing fails, and every later event goes through the queue to the dropped ones, in order |
| `StateEvents.StateReporter.WriteStateEvent` | proxy_agent_shared/src/telemetry/event_logger.rs:45-80 | emits and remembers as the state map says |
| `StateEvents.StateReporter.ReportAll` | proxy_agent_shared/src/telemetry/event_logger.rs:45-80 | a whole history of reports |
| `StateEvents.EmittedIsBudget` | proxy_agent_shared/src/telemetry/event_logger.rs:45-80 | for every history and key the events emitted are the sum over the key's maximal runs of equal values of run length over 120 rounded up, whatever other keys report |
| `StateEvents.ChangesAreEmitted` | proxy_agent_shared/src/telemetry/event_logger.rs:45-80 | a report that opens its key or changes its value is always emitted as it is, and a repeated one as it is or not at all |
| `RollingLogger.RollingLogger.OpenFile` | proxy_agent_shared/src/rolling_logger.rs:65-79 | an existing file is appended to, a missing one created empty |
| `RollingLogger.RollingLogger.DeleteOldest` | proxy_agent_shared/src/rolling_logger.rs:120-134 | the counting loop removes exactly the oldest archives beyond the maximum less one, oldest first, up to the first removal that fails |
| `RollingLogger.RollingLogger.ArchiveFile` | proxy_agent_shared/src/rolling_logger.rs:110-137 | the current file becomes the newest archive, unchanged, and the surplus goes |
| `RollingLogger.RollingLogger.RollIfNeeded` | proxy_agent_shared/src/rolling_logger.rs:181-194 | rolls exactly when the current file has reached the size limit; after a roll the file count is at most the maximum; exactly when the current file is lost |
| `RollingLogger.RollingLogger.WriteLine` | proxy_agent_shared/src/rolling_logger.rs:101-108 | the line goes whole to the end of the current file and nothing else changes but by a roll; what is retained stays a suffix of all that was written, no file exceeds the limit by more than its last entry, and a logger without its current file fails for good |
| `RollingLogger.RollingLogger.Run` | proxy_agent_shared/src/rolling_logger.rs:101-194 | over every sequence of writes, failures and restarts the retained files, oldest to newest, are a suffix of everything written; without failures every line is written |
| `RollingLogger.RenameKeeps` | proxy_agent_shared/src/rolling_logger.rs:110-118 | a rename to a newer name keeps the retained text as it was |
| `RollingLogger.RemoveOldest` | proxy_agent_shared/src/rolling_logger.rs:126-133 | removing the first of the sorted files takes exactly the front of the retained text |
| `RollingLogger.RollKeepsNewest` | proxy_agent_shared/src/rolling_logger.rs:120-134 | a roll keeps every archive while there is room and else exactly one less than the maximum, always the newest |
| `RollingLogger.SizeIsBytes` | proxy_agent_shared/src/rolling_logger.rs:184-186 | the size compared with the limit is the number of bytes written to the file |
| `ProxyPool.StepKeepsInv` | proxy_agent/src/proxy/proxy_pool.rs:17-85 | every step of a submitter, a worker or the dropping thread keeps order, the lock, tickets run once each, and exits only from a drained channel |
| `ProxyPool.DropWaits` | proxy_agent/src/proxy/proxy_pool.rs:35-55 | when drop has returned every worker is gone and every job taken ran exactly once; the jobs taken are the first the channel took, in order, and all of them, with none lost to a failed send, unless as many jobs panicked as there are workers |
| `ProxyPool.DropIsBounded` | proxy_agent/src/proxy/proxy_pool.rs:44-85 | once drop has begun every schedule is finite and nothing more is submitted |
| `ProxyPool.SomeoneMoves` | proxy_agent/src/proxy/proxy_pool.rs:44-85 | until drop has returned some thread can move |
| `ProxyPool.DropReturns` | proxy_agent/src/proxy/proxy_pool.rs:44-85 | a schedule that cannot be continued after drop began has returned from drop |
| `ProxyPool.PanicsStrandJob` | proxy_agent/src/proxy/proxy_pool.rs:63-78 | for every size, once each worker has died of a panic a queued job is never run and drop returns, so the bound on panics is tight |
| `StatusState.StatusTracker.UpdateState` | proxy_agent_extension/src/common.rs:285-320 | the counters and the state after one more outcome, and the state returned is the one read off the history |
| `StatusState.StateIsHistory` | proxy_agent_extension/src/common.rs:273-321 | for every history, however far past the counters' ceiling, Error exactly when the last 20 outcomes failed, and Success exactly when the last succeeded and the 20 before it did not all fail |
| `StatusState.Monitor.RestorePurge` | proxy_agent_extension/src/service_main.rs:473-549 | a command is issued exactly when the status is not transitioning: restore in error, purge in success |
| `StatusState.Monitor.InstallIfChanged` | proxy_agent_extension/src/service_main.rs:86-137 | an install is attempted exactly on a new sequence number with another service version, and counts as a failure whatever came of it |
| `StatusState.Monitor.ReportAggregate` | proxy_agent_extension/src/service_main.rs:273-345 | only a readable status of the extension's own version counts as success, and a command is issued by the first settled check only |
| `StatusState.Monitor.Iterate` | proxy_agent_extension/src/service_main.rs:85-169 | one iteration keeps status, flag and commands those of the ticks seen, and issues nothing once the flag is set |
| `StatusState.Monitor.Run` | proxy_agent_extension/src/service_main.rs:63-170 | over the whole run at most one restore or purge is issued, the one chosen by the first check that saw a state other than transitioning, and none before |
| `StatusState.CommandsExactly` | proxy_agent_extension/src/service_main.rs:473-549 | restore exactly when the first settled check saw an error, purge exactly when it saw success, nothing exactly while none has settled |
| `StatusState.HealthyStart` | proxy_agent_extension/src/service_main.rs:139-144 | a first check that finds the extension's own version settles at once, even right after an install |
| `StatusState.RestoreAfterTwenty` | proxy_agent_extension/src/service_main.rs:86-144 | failing checks stay transitioning until 20 failures have been counted, with one for an install, and then settle in error |

## Assumptions

- The machine is little-endian, and text the agent folds to lower case is ASCII.
- The kernel's `bpf_get_current_uid_gid` returns the group id above the user id, and `bpf_get_current_pid_tgid` the
  thread group above the thread.
- URL and JSON parsing, the keyed hash, clocks and process lookup are parameters: functions that may fail, or
  values supplied by the surroundings.
- The signing key and its guid are read as one step, though the code reads them one after the other and a poll
  between the two could put a new guid beside a signature of the old key.
- A stream yields non-empty chunks and then times out. The body loops of the source do not end on a peer that
  closes its side, since reads then succeed with nothing forever.
- Responses on the relay are whole messages; a closed host connection is a response with an empty status.
- The host returns keys whose guid is the guid it reports; intact key files stay readable. Where a result needs
  unique guids or runs without a spoiling write, its contract says so.
- Map capacities in the kernel are covered by allowing any entry to be evicted at any time.
- Archive names of the log increase from one roll to the next, and the folder holds no file of another logger whose
  name starts with this logger's name: the listing would count and delete it.
- A line written to the log is flushed by the write that ends it.
- Event files that were read can be removed.

## Left out

- Windows services, ACLs and the Windows eBPF interface: foreign calls.
- ebpf/redirect.bpf.c: a simpler single-hook variant of the Linux program.
- The setup tool, the extension's handler commands and service installation: process spawning and file copying.
- provision.rs: a three-bit state.
- response.rs and version.rs: the same shape as the request parser, and easier.
- The array layouts of the kernel map entries and the conversion from event log to telemetry event: field by field
  copies.
- Retries when a telemetry message is sent.
- Sub-status texts and messages of the extension's status file, and the codes beside the state.
- The header the agent adds to each response it passes on or sends itself.
- Failed writes to the client on the relay: they only remove what the client sees.
- The connection summary of successful requests, and clearing of the summary maps.
- `need_skip_sig`, which chooses between the signed and the unsigned path: a comparison of method and URL.
