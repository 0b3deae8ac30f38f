# PairAdmin: a verified model of its core algorithms and protocols

PairAdmin is a desktop terminal companion: it watches terminals, talks to an LLM provider, opens local
and remote shells, and scans networks for SSH hosts. This project models the parts of it that carry hard
properties and proves them for all inputs, runs and interleavings.

| module | what it models |
|---|---|
| `Wildcard`, `Policy`, `Enforcement` (with `Sieve`, `Text`) | the glob matcher, find-last-wins evaluation, the bundle compiled from the two provider lists, the two enforcement points |
| `CommandLine` | the Windows command-line printer, against the splitting rules of Microsoft's "Parsing C++ Command-Line Arguments" |
| `KeyNames`, `HashLine` (with `Hex`, `Numerals`, `Options`) | key names in the keychain, the line that stores the master password hash |
| `PasswordChange`, `KeyClient`, `Recovery` | the change of the master password under crashes, the memoized keyring, and runs that mix both |
| `StreamBackend`, `Chat`, `Streaming` | the streaming goroutine, the hook and the store that receive it, and the three together |
| `ScanRun`, `ScanResults`, `Targets`, `Feeders` | one sweep of the scanner as a concurrent state machine, what it tells, the target list as it is spelled, and the address feeders |
| `Sessions`, `SessionReuse` | who closes a terminal session, and what a reused tab id does |
| `Capture`, `CaptureHistory` | the capture poller, tick by tick and over its whole history |
| `Keystrokes` | line buffering of WinRM keystrokes |

Code that works by updating state is modelled by classes and loops, each method proved against a function
of values; the properties are lemmas about those functions. Protocols with several goroutines are state
machines whose steps are the statements that touch shared state. Time, I/O and foreign calls appear as
parameters: the result of a probe, the turns a `select` takes, the order of a directory listing, the number
of writes a process lives to make, the hash of a content.

Where the code and its comments differ, the model follows the code:

- `MatchWildcard` documents that `*` matches any run of characters. The literal case is tried first, so a
  `*` in the subject can use up the pattern's `*`. The exact conditions are `Wildcard.ExactForSubject` and
  `Wildcard.ExactForPattern`; what it means for model ids is `Policy.ModelFollowsProvider`.
- `Stop` documents that a stopped scan never emits scan:done. It does when the stop comes after the final
  check, and every sweep can be stopped so: `ScanRun.CancelledIffInTime`, `ScanRun.LateStopSeesDone`.

Limits that the comments do not mention:

- A killed change of the master password has to be retried with the same new password
  (`Recovery.RetryCompletes`); with another one it can become impossible as long as the stray items stay
  (`PasswordChange.RetryWithOtherIff`, `Recovery.OtherPasswordBlocks`).
- The memoized keyring can be told from a fresh one through a value stored under the canary's own key, and
  in no other way: `KeyClient.RunNoticedIff`, `KeyClient.CanaryRunIsNoticed`.
- A stream ended by its five-minute context emits no event, so the hook keeps its place and the next
  response loses its head and is glued to the old message: `Streaming.EveryResponseIsRightIff`,
  `Streaming.LeavesAtRestIff`, `Streaming.TwoStreams`.
- A hook that is reset while a response comes in loses its early chunks, and with them the rest, which waits
  for them: `Streaming.ResetCostsIff`. A change of tab in mid-stream does that (`Streaming.RunAcrossTabs`).
- Chunk events carry no stream id and a second prompt can be sent before the first answer is done. Two
  overlapping answers share one message and one count, and one text for each number is all that stays:
  `Streaming.OverlapMixes`, `Streaming.OverlapCostsIff`, `Streaming.OverlappingStreams`.
- Session ownership rests on fresh tab ids: `Sessions.OpenKeepsInvIff`. The frontend takes them from
  `crypto.randomUUID()` (`frontend/src/components/terminal/NewTerminalDialog.tsx`), so they are.

Verify with `dafny verify dfyconfig.toml`.

## Model

| member | source | states |
|---|---|---|
| `Wildcard.MatchWildcard` | services/llm/policy/policy.go:168-196 | the loop with its single backtrack point answers as the specification function of its switch says, in fewer than (length of subject + 1) * (length of pattern + 1) iterations |
| `Wildcard.AcceptsImpliesGlob` | services/llm/policy/policy.go:157-196 | soundness for every pattern and subject: what is accepted is in the declarative glob relation |
| `Wildcard.GlobImpliesAccepts` | services/llm/policy/policy.go:174-191 | completeness when the subject has no `*` before its last character: revisiting only the last wildcard loses no match |
| `Wildcard.ExactForSubject` | services/llm/policy/policy.go:157-196 | for a subject, the loop decides the glob relation for all patterns if and only if the subject has no `*` before its last character |
| `Wildcard.ExactForPattern` | services/llm/policy/policy.go:157-196 | for a pattern, the loop decides the glob relation for all subjects if and only if the pattern has no `*` |
| `Wildcard.StarInsideIsMissed` | services/llm/policy/policy.go:176-182 | every subject with an inner `*` has a pattern that documents a match and is rejected: the literal case takes the pattern's `*` |
| `Wildcard.StarDoesNotMatchStarA` | services/llm/policy/policy.go:157-160 | the comment says `*` matches any run; pattern `*` rejects `*a` |
| `Wildcard.LiteralPattern` | services/llm/policy/policy.go:163-167 | a pattern without `*` accepts exactly itself; the empty pattern only the empty string |
| `Wildcard.LiteralThenStar` | services/llm/policy/policy.go:174-195 | exactly which subjects a literal prefix followed by a final `*` accepts, the patterns that the local bundle emits |
| `Policy.Evaluate` | services/llm/policy/policy.go:138-155 | the loop returns the last applicable statement's effect or the default, and reports whether any statement applied |
| `Policy.LastApplicableDecides` | services/llm/policy/policy.go:124-155 | find-last-wins: there is a last applicable statement that decides, or none and the default decides |
| `Policy.LastWinsConcat` | services/llm/policy/policy.go:144-154 | a later block of statements overrides, and otherwise falls back on, an earlier one |
| `Policy.CleanEntries` | services/llm/policy/local.go:79-87 | the loop computes the cleaned list |
| `Policy.CleanMembers` | services/llm/policy/local.go:75-87 | a cleaned list holds exactly the trimmed non-blank entries |
| `Policy.LocalBundle` | services/llm/policy/local.go:34-73 | the bundle compiled from the two lists, statement by statement |
| `Policy.CompiledMeaning` | services/llm/policy/local.go:22-73 | for all lists: a request is denied exactly when a cleaned disabled entry matches it, or the cleaned enabled list is non-empty and no entry matches it |
| `Policy.DisablingNeverPermits` | services/llm/policy/local.go:14-20 | narrowing only: adding disabled entries never permits what was denied |
| `Policy.EntryCoversModel` | services/llm/policy/local.go:51-71 | for plain ids, an entry's model pattern covers a model of p exactly when the entry is p and the model id is not `*` followed by more |
| `Policy.ModelFollowsProvider` | services/llm/policy/policy.go:228-236 | for a plain provider id and a model id that is not empty: the model gets the provider's decision under all plain lists, if and only if its id is not `*` followed by more, or the provider id is empty or not trimmed (no cleaned entry equals it) |
| `Policy.EscapeIsPossible` | services/llm/policy/local.go:65-71 | for such a model id there are lists that deny the provider and leave the model permitted |
| `Policy.ResourceNames` | services/llm/policy/policy.go:228-236 | a resource is named by its provider and, if there is one, its model |
| `Policy.EffectIff` | services/llm/policy/policy.go:102-107 | an effect is deny exactly if it is that word in any case, with any white space around it; every other word allows |
| `Policy.DecisionIs` | services/llm/policy/policy.go:114-155 | what any bundle decides: the effect of the last statement whose two patterns accept, or of the default, and allow without a bundle |
| `Enforcement.FilterCatalogByPolicy` | services/llm/policy_enforcement.go:39-64 | the nested loops compute the filtered catalog; a provider whose models are all denied stays |
| `Enforcement.SurvivesFiltering` | services/llm/policy_enforcement.go:39-64 | a pair is offered afterwards exactly when it was before and neither provider nor model is denied |
| `Enforcement.EnforcementPointsAgree` | services/llm/policy_enforcement.go:97-132 | filtering and the request check agree on a pair for all bundles and catalogs, if and only if the provider is neither empty nor "disabled" and the model is not empty |
| `Enforcement.Disagreement` | services/llm/policy_enforcement.go:116-131 | for each other pair, a bundle and a catalog on which the two differ |
| `Enforcement.FilterIdempotent` | services/llm/policy_enforcement.go:39-64 | filtering twice is filtering once |
| `Enforcement.FilterKeepsProviderOrder` | services/llm/policy_enforcement.go:35-64 | the providers kept are exactly those not denied, in order |
| `Enforcement.FilterKeepsModelOrder` | services/llm/policy_enforcement.go:46-59 | the models kept are exactly those not denied, in order, the rest of the provider unchanged |
| `Enforcement.VerdictIff` | services/llm/policy_enforcement.go:116-131 | which requests pass under any bundle, by the decisions on the provider and, if one is configured, on its model; and what a refusal names |
| `Enforcement.DisabledIsRefused` | services/llm/policy_enforcement.go:116-123 | a provider on the disabled list is refused with every model and without one, for all lists |
| `Enforcement.LocalRequestIff` | services/llm/policy_enforcement.go:97-131 | which requests two plain lists let through, exactly: not disabled, and without an allowlist, or listed with no model or one that does not escape |
| `CommandLine.QuoteWindowsArg` | services/elevation.go:142-168 | the loop with its backslash counter prints the quoted argument |
| `CommandLine.BuildArgString` | services/elevation.go:131-140 | the arguments quoted and separated by one space |
| `CommandLine.ReadOne` | services/elevation.go:118-126 | the C runtime's rules read one printed argument back, and stop at its end |
| `CommandLine.RoundTrip` | services/elevation.go:118-168 | splitting the printed line gives back the arguments, for all lists, if and only if no argument holds a NUL |
| `CommandLine.QuotedIff` | services/elevation.go:143-147 | an argument is printed as it is exactly if it is not empty and holds no blank, line end or quote |
| `KeyNames.DecodeSanitized` | services/keychain/keychain.go:18-36 | percent-decoding a sanitized key gives back the key |
| `KeyNames.NamesDoNotCollide` | services/keychain/keychain.go:18-36 | two keys have the same name only if they are equal |
| `KeyNames.NamesAreSafe` | services/keychain/keychain.go:18-36 | no name holds a character that Windows refuses in a file name |
| `KeyNames.UnchangedIffPlain` | services/keychain/keychain.go:28-36 | the keys left alone are exactly those without such a character |
| `KeyNames.UnsafeTable` | services/keychain/keychain.go:28-36 | the characters that are escaped, spelled out |
| `KeyNames.EscapeTable` | services/keychain/keychain.go:28-36 | what each becomes, spelled out |
| `KeyNames.SanitizedInOrder` | services/keychain/keychain.go:28-36 | a key is escaped character by character, in order |
| `HashLine.RoundTrip` | services/keychain/master_password.go:96-169 | parsing the printed line gives the same N, r, p, salt and hash for all in-bounds parameters, any non-empty salt and any 32-byte hash |
| `HashLine.RoundTripTrimmed` | services/keychain/master_password.go:175-183 | the same with any white space around the line in the file |
| `HashLine.AcceptedIsInBounds` | services/keychain/master_password.go:133-169 | whatever the line, what is accepted is in bounds with a salt and a 32-byte hash, and printing it again parses to the same |
| `HashLine.AcceptedNotPrinted` | services/keychain/master_password.go:144-155 | the parser accepts more than is printed: a sign before N |
| `HashLine.PrintedAgainIff` | services/keychain/master_password.go:133-169 | an accepted line is printed again as it was if and only if its numbers have no sign and no leading zero and its hex digits no capital |
| `HashLine.LineSpelled` | services/keychain/master_password.go:96-131 | the printed line, field by field |
| `HashLine.HexAt` | services/keychain/master_password.go:96-131 | each byte of salt and hash at its place, two lower-case digits, the high half first |
| `HashLine.AcceptedIff` | services/keychain/master_password.go:133-169 | exactly which lines are accepted, with the bounds in numbers |
| `HashLine.RefusalTells` | services/keychain/master_password.go:133-169 | a refusal tells what is wrong with the line and in which field |
| `PasswordChange.FileStore.ReencryptFileItems` | services/keychain/keychain.go:441-462 | where the pass over a listing stops, what it has rewritten by then, and why, for every listing and every number of writes the process lives to make |
| `PasswordChange.FileStore.ChangeMasterPassword` | services/keychain/keychain.go:385-413 | the disk and the reply after the whole change or the part of it the process lives for; an empty password, a bad hash file and a wrong password are refused |
| `PasswordChange.EveryCrashKeepsSecrets` | services/keychain/keychain.go:379-413 | wherever the process dies no key and no plaintext is lost, an item only moves from the old password to the new, and the hash changes only with success |
| `PasswordChange.CompletesIff` | services/keychain/keychain.go:385-413 | the change succeeds if and only if the old password is right, the new one is not empty, no item is under a third password, and enough writes are left |
| `PasswordChange.ChangeKeepsSafe` | services/keychain/keychain.go:379-384 | every state left is before, during or after the change: old hash and items under either password, or new hash and all items under the new one |
| `PasswordChange.ProgressIsKept` | services/keychain/keychain.go:446-454 | with two different passwords, every write of a killed attempt is one fewer for the retry |
| `PasswordChange.RetryWithOtherIff` | services/keychain/keychain.go:379-413 | after an attempt that could not make all its writes, a retry that can make its own succeeds if and only if it names the same new password, or the first attempt wrote nothing or changed nothing |
| `PasswordChange.StraysBlockAChange` | services/keychain/keychain.go:445-456 | with two items under two passwords that are not the current one, no change succeeds, and the two stay |
| `PasswordChange.RefusedIff` | services/keychain/keychain.go:385-398 | which refusal each wrong request gets, and that it changes nothing |
| `PasswordChange.StopsWhere` | services/keychain/keychain.go:441-462 | how far a change gets: up to some place of the listing every item is moved, from there on nothing is touched, and the reply says why |
| `KeyClient.Client.OpenRing` | services/keychain/keychain.go:167-197 | the first use opens and probes, later uses return the memoized keyring or error |
| `KeyClient.Client.Get` | services/keychain/keychain.go:231-244 | the reply and the new state, for each kind of keyring; a missing key is an empty value |
| `KeyClient.Client.Set` | services/keychain/keychain.go:247-256 | the reply and the new state, for each kind of keyring |
| `KeyClient.Client.Remove` | services/keychain/keychain.go:259-265 | the reply and the new state, for each kind of keyring |
| `KeyClient.Client.SetMasterPassword` | services/keychain/keychain.go:334-355 | refuses an empty password or an existing hash file, and changes nothing if the write fails; otherwise stores the hash and drops the cache |
| `KeyClient.Client.VerifyMasterPassword` | services/keychain/keychain.go:360-377 | only on a match is the password held and the cache dropped; a malformed hash file is an error |
| `KeyClient.Client.ChangeMasterPassword` | services/keychain/keychain.go:385-413 | memory and cache change only when the change on disk has succeeded |
| `KeyClient.CacheIsTransparent` | services/keychain/keychain.go:139-207 | one operation through the memoized keyring gives the reply and the state of opening afresh |
| `KeyClient.StaysCoherentIff` | services/keychain/keychain.go:162-207 | the cached keyring stays the one opening would give, its captured password the one in memory, unless a value is stored under the canary's own key in a store of the operating system |
| `KeyClient.CanaryNameTellsApart` | services/keychain/keychain.go:84-136 | with a value stored under the canary's key a removal differs between the cached and a fresh keyring, and so does a lookup if the value is not empty |
| `KeyClient.NoticedIff` | services/keychain/keychain.go:139-207 | one operation replies as it does with the keyring opened again, if and only if it does not remove, or find not empty, a value stored under the canary's key |
| `KeyClient.AllRepliesAgreeIff` | services/keychain/keychain.go:84-136 | with a cached keyring of the operating system all operations do so if and only if nothing is stored under the canary's key |
| `KeyClient.RunNoticedIff` | services/keychain/keychain.go:58-68 | over a whole run the replies are those of a client that never caches, if and only if no operation notices such a value |
| `KeyClient.CacheCannotBeNoticed` | services/keychain/keychain.go:58-68 | over a whole run that avoids it, every reply equals that of a client that never caches |
| `KeyClient.CanaryRunIsNoticed` | services/keychain/keychain.go:84-136 | a failing run from a client that has opened nothing: storing under the canary's key and removing it does not reply as a client that never caches |
| `KeyClient.StoreThenRead` | services/keychain/keychain.go:229-256 | a stored secret is read back and no other provider is affected |
| `KeyClient.LoginIff` | services/keychain/keychain.go:360-377 | a login is answered true exactly for the password that the hash file verifies, with an error exactly if the file is malformed, else false with nothing changed |
| `KeyClient.LoginUnlocks` | services/keychain/keychain.go:229-244 | after a login over files every item stored under its password reads back |
| `KeyClient.LoginIsForLastSet` | services/keychain/keychain.go:334-413 | over any run from a store without a hash file, a login is answered true exactly for the password that was set or changed to last, and false for every other |
| `KeyClient.MemoryIsLastHeld` | services/keychain/keychain.go:334-413 | after any run, memory holds the password of the last login, setting or change that succeeded since the last start, or none |
| `KeyClient.FilesNeedThePassword` | services/keychain/keychain.go:229-265 | over files the replies of lookup, store and removal depend on the items and the password in memory, not on the cache; without a password nothing stored is read and nothing is stored |
| `KeyClient.NothingOpensFailsAll` | services/keychain/keychain.go:167-197 | if no keyring opens, each of them fails and nothing changes |
| `KeyClient.SetMasterIff` | services/keychain/keychain.go:334-355 | when the first password is set, what is refused, and that a refusal changes nothing |
| `Recovery.RunStaysOnCourse` | services/keychain/keychain.go:379-413 | over any run of lookups, stores, removals, logins, restarts and killed attempts with the same two passwords, the disk stays safe and memory holds only the password that the hash verifies |
| `Recovery.RetryCompletes` | services/keychain/keychain.go:379-384 | after any such run, a retry that is not killed leaves every item under the new password and every secret in place |
| `Recovery.ReadableAfterLogin` | services/keychain/keychain.go:229-244 | after that and a login, every stored provider reads its secret |
| `Recovery.OriginalSecretsReadable` | services/keychain/keychain.go:379-384 | every secret stored before the first attempt and left alone since is read back under the new password, after any run of killed attempts, a retry and a login |
| `Recovery.SecretsChangeOnlyByTheUser` | services/keychain/keychain.go:246-265 | secrets change only by a store or a removal that succeeds, at that provider alone |
| `Recovery.UntouchedSecretSurvives` | services/keychain/keychain.go:379-462 | a secret that the user leaves alone is still there after any run, whatever was killed and retried |
| `Recovery.HalfMovedReads` | services/keychain/keychain.go:445-459 | between a killed attempt and its retry exactly the moved items cannot be read |
| `Recovery.StraysBlockEveryRun` | services/keychain/keychain.go:379-462 | from two strays no change succeeds in any run of changes, logins, restarts, lookups and other providers stored and removed |
| `Recovery.OtherPasswordBlocks` | services/keychain/keychain.go:379-384 | retrying with another new password can leave two strays, after which no change succeeds in any run that leaves the two items alone |
| `StreamBackend.RunStream` | services/llm_service.go:264-312 | the events of the select loop, and the text written to the audit log, for every sequence of turns |
| `StreamBackend.EventsAreNumbered` | services/llm_service.go:270-280 | chunk events are numbered without a gap and only the last event is of another kind |
| `StreamBackend.DoneEventIffEndsDone` | services/llm_service.go:284-311 | a done event ends the stream exactly when the response ended, not on an error or the context |
| `StreamBackend.TextIsConserved` | services/llm_service.go:264-312 | the chunk events hold the provider's text, nothing lost, added or reordered, and a prefix of it if the context ended the stream |
| `StreamBackend.ClosingEvent` | services/llm_service.go:284-311 | spelled on the turns: the first turn that is neither a tick nor only text closes the stream, an error passed on as it came, a done chunk or a closed channel by a done event, the context by none; the text is what was received before |
| `StreamBackend.AuditedIff` | services/llm_service.go:284-311 | spelled on the turns: the text received is audited exactly when a done chunk or a closed channel closes the stream |
| `StreamBackend.TickSendsAll` | services/llm_service.go:307-308 | a stream that goes on has no closing event, and after a tick all that was received has been sent |
| `StreamBackend.EventsOnlyGrow` | services/llm_service.go:264-312 | later turns only add events |
| `Chat.ChatStore.StartStreamingMessage` | frontend/src/stores/chatStore.ts:87-94 | a new empty streaming message at the end of its tab, nothing else changed |
| `Chat.ChatStore.AppendChunk` | frontend/src/stores/chatStore.ts:95-104 | the one message found has its mark moved behind the added text, nothing else changed |
| `Chat.ChatStore.FinalizeMessage` | frontend/src/stores/chatStore.ts:105-118 | the one message found loses its mark and stops streaming, nothing else changed |
| `Chat.ChatStore.SetStreamError` | frontend/src/stores/chatStore.ts:119-142 | an interrupted message keeps its text and is marked; without one the error becomes a message |
| `Chat.LLMStreamHook.FlushPending` | frontend/src/hooks/useLLMStream.ts:19-27 | drains the waiting chunks in sequence; the store shows what the drained view shows |
| `Chat.LLMStreamHook.HandleChunk` | frontend/src/hooks/useLLMStream.ts:29-38 | the view and the whole store after a delivery in or out of order |
| `Chat.LLMStreamHook.HandleDone` | frontend/src/hooks/useLLMStream.ts:40-45 | the hook at rest, the streamed message final, the rest of the store unchanged |
| `Chat.LLMStreamHook.HandleError` | frontend/src/hooks/useLLMStream.ts:60-64 | the hook at rest, the streamed message marked or a new error message, the rest unchanged |
| `Streaming.AlwaysTheArrivedPrefix` | frontend/src/hooks/useLLMStream.ts:19-38 | under any order, repetition and omission of deliveries the message shows, before its mark, exactly the chunks before the first that has not arrived, marks inside the text included |
| `Streaming.EndToEnd` | services/llm_service.go:264-312 | if every chunk event arrives before the done or error event, what is shown is exactly the provider's text, for all chunks, ticks and orders |
| `Streaming.RunResponse` | frontend/src/hooks/useLLMStream.ts:29-45 | the same of the handlers running on the store: one new finished message holding exactly the provider's text, nothing else changed |
| `Streaming.RunFailedResponse` | frontend/src/hooks/useLLMStream.ts:60-64 | for a stream that an error chunk ends: exactly the text received before it and the interruption mark, or the provider's own error as a message |
| `Streaming.MissingChunksTruncate` | frontend/src/hooks/useLLMStream.ts:29-45 | with chunks missing, what is lost is exactly the text from the first missing one on |
| `Streaming.EveryResponseIsRightIff` | frontend/src/hooks/useLLMStream.ts:6-38 | of a view between responses, every response that is delivered wholly and with no chunk of another stream ends with its own text if and only if the hook is at rest |
| `Streaming.RightIffRestIsBlank` | frontend/src/hooks/useLLMStream.ts:29-45 | from rest, whatever chunks of a response arrive, it ends with its own text if and only if all its chunks are empty from the first missing one on |
| `Streaming.ResetCostsIff` | frontend/src/hooks/useLLMStream.ts:12-16 | a hook reset while a response comes in, by a change of tab or by the done event of another stream, gets the response right afterwards if and only if none of its chunks came before the reset |
| `Streaming.RunAcrossTabs` | frontend/src/hooks/useLLMStream.ts:10-45 | the handlers across a change of tab in mid-stream: the old tab keeps the early chunks in a message that goes on streaming, the new tab gets what the late ones give |
| `Streaming.LeavesAtRestIff` | services/llm_service.go:284-311 | a stream leaves the hook at rest if and only if it ends in a done or error event or none of its chunks was delivered, and no chunk comes after that event |
| `Streaming.StaleHookSwallows` | frontend/src/hooks/useLLMStream.ts:29-38 | from any view, deliveries numbered below the hook's place change neither what is shown nor the place |
| `Streaming.ResponsesAreGlued` | frontend/src/hooks/useLLMStream.ts:29-45 | a response after one that was wholly delivered but ended without an event loses as many chunks as that had, and the rest is glued to its text |
| `Streaming.RunAfterContextEnd` | services/llm_service.go:309-310 | the same of the handlers running on the store after a stream that its context ended: one message with the first text and the tail of the second |
| `Streaming.OneTextPerNumber` | frontend/src/hooks/useLLMStream.ts:19-38 | whatever is delivered, from however many streams, the message gets one of the texts that came under each number, up to the first number under which none came |
| `Streaming.OverlapMixes` | services/llm_service.go:47-52 | two responses whose chunks all arrive before the first done event, in any order, make one text: under each number the chunk of one of the two |
| `Streaming.OverlapCostsIff` | services/llm_service.go:252-313 | with no empty chunks, nothing of the two is lost if and only if one of them has no chunk |
| `Streaming.RunOverlapping` | frontend/src/hooks/useLLMStream.ts:29-45 | the handlers over such deliveries and both done events: one finished message with that text for the two responses, and nothing else |
| `Streaming.OverlappingStreams` | services/llm_service.go:47-52 | a failing input: events carry no stream, so of "A" and "p", both wholly delivered before the first done event, "A" is stored and "p" nowhere |
| `Streaming.TwoStreams` | services/llm_service.go:309-310 | a failing input: "A", ended by the context, then "pq", wholly delivered, is stored as "Aq" |
| `Feeders.OctetsOfNumber` | services/scanner/targets.go:44-55 | octets to number to octets is the identity |
| `Feeders.NumberOfOctets` | services/scanner/targets.go:44-55 | number to octets to number is the identity |
| `Feeders.NewCIDRFeeder` | services/scanner/targets.go:101-127 | refuses exactly the unconfirmed blocks over the limit; otherwise the feeder will yield the block |
| `Feeders.CIDRFeeder.Next` | services/scanner/targets.go:135-148 | yields the head of what remains, or fails exactly when nothing does; no 32-bit wrap-around |
| `Feeders.CIDRFeeder.Collect` | services/scanner/targets.go:73-83 | drains exactly what remains, in order |
| `Feeders.NewRangeFeeder` | services/scanner/targets.go:174-218 | refuses exactly the unconfirmed ranges over the limit; otherwise the feeder will yield the range |
| `Feeders.RangeFeeder.Next` | services/scanner/targets.go:226-243 | yields the head of what remains in either direction, or fails exactly when nothing does; no 32-bit wrap-around |
| `Feeders.RangeFeeder.Collect` | services/scanner/targets.go:73-83 | drains exactly what remains, in order |
| `Feeders.BlockFits` | services/scanner/targets.go:112-126 | no block runs past 255.255.255.255 |
| `Feeders.BlockIsThePrefix` | services/scanner/targets.go:89-127 | a CIDR block is exactly the addresses that share the prefix, once each, ascending, as many as the size says |
| `Feeders.RangeIsTheInterval` | services/scanner/targets.go:159-218 | a range is exactly the addresses between its ends, once each, in the direction of its arguments |
| `Feeders.BlockIsARange` | services/scanner/targets.go:101-218 | a block is the range from its first to its last address |
| `Feeders.NumbersFollowOctets` | services/scanner/targets.go:44-55 | numbers are ordered as the octets are, the first octet first |
| `Feeders.BlockOnOctets` | services/scanner/targets.go:89-127 | an address is in a block exactly if its first bits, counted from the high bit of its first octet, are those of the block's address |
| `Feeders.RangeOnOctets` | services/scanner/targets.go:159-218 | an address is in a range exactly if, octet by octet, it comes neither before the first nor after the last of the two ends |
| `Feeders.MembersAsIps` | services/scanner/targets.go:60-83 | an address is collected exactly if its number is one the feeder stands for |
| `Feeders.SmallBlockIff` | services/scanner/targets.go:89-111 | the limit without a confirmation admits exactly the prefixes from 16 on |
| `Targets.CompleteRangeEnd` | services/scanner/service.go:452-473 | a full end passes through, a bare octet is put on the start's first three, anything else is an error |
| `Targets.BuildTargets` | services/scanner/service.go:397-450 | the loop and its switch collect what the specifications mean, in order, or fail exactly when one of them does |
| `Targets.SingleAddress` | services/scanner/service.go:419-426 | a spelled address stands for itself alone |
| `Targets.FullRange` | services/scanner/service.go:427-436 | two spelled ends stand for the addresses between them in the direction written, unless they are too many |
| `Targets.BareEnd` | services/scanner/service.go:452-473 | a bare end stands for the start with its last octet replaced, and is refused exactly when it is no octet |
| `Targets.Block` | services/scanner/service.go:416-418 | a spelled block stands for its addresses if its prefix is from 16 to 32 bits long, and is refused otherwise |
| `Targets.AllOrNothing` | services/scanner/service.go:413-449 | the list fails exactly when one specification does, and otherwise holds exactly what they stand for |
| `Targets.AnyEnd` | services/scanner/service.go:427-473 | a spelled start with any end: a full end makes the range to it, a number from 0 to 255 replaces the last octet, everything else is refused |
| `Targets.ReadsIff` | services/scanner/service.go:419-426 | an IPv4 address is read from exactly one spelling |
| `Targets.QuadSpelled` | services/scanner/service.go:452-473 | that spelling: the four octets in decimal, in order, with dots |
| `Targets.FamilyIff` | services/scanner/service.go:419-426 | the first dot, colon or percent sign of a string tells whether it is read as IPv4, by the library's IPv6 reader, or not at all |
| `Targets.MappedBlock` | services/scanner/targets.go:101-127 | a block of an IPv4-mapped address counts its prefix from bit 96, and others are refused |
| `Targets.V6IsRefused` | services/scanner/service.go:419-426 | IPv6 is refused, as an address and as a block |
| `Targets.OthersAreRefused` | services/scanner/service.go:437-439 | what is no address, no block and has no dash is refused |
| `Targets.AcceptedIsARange` | services/scanner/service.go:413-449 | whatever is accepted stands for a range of at least one and at most 65536 addresses |
| `ScanRun.ClampMaxProbes` | services/scanner/service.go:540-552 | a limit within 16 and 256, the request itself when it is, 64 by default |
| `ScanRun.NormalizePorts` | services/scanner/service.go:500-523 | each requested port once, in the order of first places; 22 if none |
| `ScanRun.JobsAreThePairs` | services/scanner/service.go:321-327 | the two nested loops dispatch every (target, port) pair once |
| `ScanRun.JobsInOrder` | services/scanner/service.go:321-327 | and in order: target by target, for each the ports in theirs |
| `ScanRun.RunKeepsInv` | services/scanner/service.go:296-391 | the invariant of every interleaving: permits, counters, rows and log agree with where each goroutine is |
| `ScanRun.OneTerminalEvent` | services/scanner/service.go:265-266 | at most one terminal event, exactly one once the goroutine has returned, and no row after it |
| `ScanRun.BoundsHold` | services/scanner/service.go:296-371 | at every step: active probes at most the permits, permits at most the clamped limit, done at most rows, rows at most the total; the same of every progress event |
| `ScanRun.DoneMeansComplete` | services/scanner/service.go:377-390 | scan:done means exactly one row for every pair, and ssh + filtered + closed = total = rows of each state |
| `ScanRun.DoneCoversEveryPair` | services/scanner/service.go:282-285 | in terms of the request: one row for every target and every distinct port, and the total is their product |
| `ScanResults.RowsTellWhatWasFound` | services/scanner/service.go:333-366 | behind every row is a step with which the call of its probe returned before any cancellation, and the row has that job's target and port and the state of that result, never filtered for closed |
| `ScanResults.RowIffFound` | services/scanner/service.go:333-391 | when a sweep has returned, cancelled or not, a row is on record exactly if its probe found it in time |
| `ScanResults.TotalsAreOfWhatWasFound` | services/scanner/service.go:377-390 | the three totals of scan:done are the numbers of jobs for which each result was found, and every job has one |
| `ScanResults.TickTellsTheCounts` | services/scanner/service.go:300-318 | at every moment a tick can come and tells how many probes have reported and how many are at work, and a stop can come |
| `ScanResults.EndingIsTold` | services/scanner/service.go:277-390 | how a sweep ends: with scan:error exactly if its target list failed, otherwise with scan:cancelled or scan:done by whether the cancellation came before the final check |
| `ScanResults.ProgressNeverFalls` | services/scanner/service.go:300-318 | the progress told never falls and never runs ahead of the rows |
| `ScanRun.CancelledIffInTime` | services/scanner/service.go:376-390 | a sweep ends cancelled if and only if the cancellation came before the final check |
| `ScanRun.EverySweepCanComplete` | services/scanner/service.go:267-391 | every sweep, whatever its request, has a run without a cancellation that passes the final check |
| `ScanRun.LateStopSeesDone` | services/scanner/service.go:250-253 | every sweep can be stopped after that check and then still ends with scan:done, which the comment on Stop excludes |
| `ScanRun.ErrorMeansNoRows` | services/scanner/service.go:277-281 | scan:error comes without a row |
| `ScanRun.StepsReduceWork` | services/scanner/service.go:267-391 | every step of the sweep's goroutines leaves less to do |
| `ScanRun.NoDeadlock` | services/scanner/service.go:330-373 | a sweep that has not returned can take such a step, even with every permit taken |
| `Sessions.StepKeepsInv` | services/pty_service.go:292-304 | with fresh tab ids every step of every interleaving keeps the ownership invariant |
| `Sessions.ClaimedAndClosedOnce` | services/pty_windows.go:50-101 | a session is claimed at most once and closed at most once, and exactly once when its goroutines and its claimer have finished, for shells, ConPTY, SSH and WinRM with any number of CloseTerminal calls |
| `Sessions.ToldOnce` | services/remote_ssh.go:275-325 | pty:closed is emitted exactly once for a finished session; not at all for SSH and WinRM when CloseTerminal claimed it |
| `Sessions.LookFindsOwn` | services/pty_service.go:115-123 | a goroutine that finds its tab's entry finds its own session, unclaimed |
| `Sessions.OpenKeepsInvIff` | services/pty_service.go:90-92 | opening a session keeps the ownership invariant if and only if its tab id is free |
| `SessionReuse.OpenStarts` | services/pty_service.go:76-97 | which goroutines opening a session starts, for each kind, and under which entry |
| `SessionReuse.ReusedTabId` | services/pty_windows.go:88-96 | if a goroutine of an earlier session still runs under the tab id, it takes the new session's entry: it closes its own handle again, or for SSH and WinRM the new session, which is left unowned |
| `SessionReuse.CountsSurviveIff` | services/remote_ssh.go:298-325 | when that happens, both sessions are still claimed and closed once each if and only if an SSH pump takes an SSH session or a WinRM pump a WinRM session |
| `SessionReuse.ClosedWhileRunning` | services/pty_service.go:292-304 | that state is reachable for every kind of session: closed by CloseTerminal with its first goroutine still running |
| `SessionReuse.OverwrittenIsNeverClaimed` | services/pty_service.go:90-92 | if a session is still registered under the tab id, it is never claimed whatever follows, and an SSH or WinRM session is never closed |
| `Capture.CaptureManager.UpdateMembership` | services/capture/manager.go:133-154 | the new pane states, and changed exactly when the set of tracked panes changes, whatever order the maps are walked in |
| `Capture.CaptureManager.EmitUpdates` | services/capture/manager.go:208-234 | the states and update events of the results in the order in which they came |
| `Capture.CaptureManager.Tick` | services/capture/manager.go:107-235 | the whole tick: panes and events |
| `Capture.DiscoveredInOrder` | services/capture/manager.go:108-117 | adapters are asked one after the other and their panes put together in that order |
| `Capture.DiscoveredOne` | services/capture/manager.go:108-117 | one that answers adds its panes, one that fails adds nothing and stops nothing |
| `Capture.UpdatesShowFiltered` | services/capture/manager.go:208-234 | every update shows a content captured in this tick, filtered, or as captured if the filter fails |
| `Capture.TabsAreTheDiscovered` | services/capture/manager.go:156-167 | the tabs announced are those discovered, each id at its place |
| `CaptureHistory.PanesAreIndependent` | services/capture/manager.go:107-235 | after any ticks, what is held and emitted for a pane is a function of that pane's history alone |
| `CaptureHistory.TabsIffMembershipChanges` | services/capture/manager.go:156-167 | terminal:tabs is emitted exactly on ticks where the tracked set changes, once and first |
| `CaptureHistory.TrackedInLastThree` | services/capture/manager.go:133-154 | a pane is tracked if and only if one of the last three ticks discovered it, and its miss count is the ticks since |
| `CaptureHistory.LifetimeIsOneDedup` | services/capture/manager.go:226-233 | over a tracked lifetime the updates are one deduplication of all contents captured |
| `CaptureHistory.NoUpdateTwice` | services/capture/manager.go:226-233 | no two consecutive updates of a lifetime are equal, for any hash |
| `CaptureHistory.AlwaysCurrentIff` | services/capture/manager.go:226-233 | the last update shows the latest content at every moment of a lifetime if and only if the first hash is not zero and no content collides with the one before it |
| `CaptureHistory.ScreenIsCurrent` | services/capture/manager.go:208-234 | then, after any ticks, the last update emitted for a tracked pane is its latest captured content |
| `Keystrokes.ProcessWinRMKeystrokes` | services/remote_winrm.go:146-168 | the loop completes the lines and leaves the buffer that the specification says |
| `Keystrokes.TwoChunks` | services/remote_winrm.go:146-168 | feeding two chunks is feeding their sum, but for one more empty line when the cut splits a CR-LF pair |
| `Keystrokes.ChunksAddLines` | services/remote_winrm.go:146-168 | over any chunks the pending buffer is the same and one line is added per split pair |
| `Keystrokes.ChunkingIsInvisible` | services/remote_winrm.go:146-168 | the result is independent of the chunking if and only if no cut splits a CR-LF pair |
| `Keystrokes.OneKey` | services/remote_winrm.go:146-168 | what each byte does, by its number |
| `Keystrokes.TextIsAdded` | services/remote_winrm.go:163-166 | text without such bytes is added as it comes |
| `Keystrokes.ErasingUndoes` | services/remote_winrm.go:151-154 | erasing as often as was typed leaves the buffer as it was |
| `Keystrokes.LineIsSent` | services/remote_winrm.go:155-162 | text and a line end, be it CR, LF or the pair, complete one line |
| `Keystrokes.LinesAreClean` | services/remote_winrm.go:149-165 | from a clean buffer no line and no buffer ever holds CR, LF, backspace, delete or Ctrl+C |

## Left out

- Strings are sequences of characters where the Go code works on bytes; invalid UTF-8 (which the command-line printer replaces and the matcher compares byte by byte) is not modelled. `Keystrokes` and the hashes of `HashLine` are over bytes.
- Chat.ChatStore.FinalizeMessage: does not model the estimated token count, which is display data.
- Chat.ChatStore.StartStreamingMessage: the generated id is a parameter that does not occur in the tab yet, as the program takes it from a random UUID.
- Chat.LLMStreamHook.HandleDone: does not model the activity indicator and the connection status that it and HandleError also set.
- Streaming.RunAcrossTabs: a change of tab is a new hook on the same store; unsubscribing from the events and importing the runtime, which the effect also does, are not modelled.
- Streaming.RunOverlapping: chunks of the second response that come after the first done event are not its subject; they meet a hook that was reset, which `Streaming.ResetCostsIff` covers.
- Streaming.RunFailedResponse: the `llm:error` without chunks that is sent when the provider refuses the stream reaches the same handler, and is not an event of `StreamBackend`.
- Enforcement.FilterCatalogByPolicy: the catalog's display fields are not modelled; the inner loop is a method of its own.
- PasswordChange.FileStore.ReencryptFileItems: does not model an error of opening the two keyrings or of listing the keys, which the code returns before any write; one item write is atomic and the listing is complete. How the keyring library names, writes and encrypts files is not part of this model.
- PasswordChange.FileStore.ChangeMasterPassword: does not model those errors either, nor a hash file that exists and cannot be read, which it reports like a malformed one.
- KeyClient.Client.VerifyMasterPassword: does not tell an unreadable hash file from a malformed one.
- KeyClient.Client.SetMasterPassword: does not model an error of looking for the hash file.
- KeyClient.Client.OpenRing: what opening finds is the same every time; a store of the operating system that breaks or appears while the program runs is not modelled.
- Calls of the keychain client are sequential; data races on its unlocked password field are not modelled. `RemoveAll`, `NeedsMasterPassword` and `HasMasterPassword` are left out.
- scrypt, AES and the random salt: a hash verifies one password and an item decrypts under its own password only.
- FNV-64a is a parameter of `Capture`; which contents collide under it is not studied.
- Capture.CaptureManager.Tick: capturing runs concurrently in the program; its results enter the model as a sequence in any order. Agreement of the tabs announced with the tracked panes is not claimed, since the program announces the current discovery.
- Regular-expression filters of `services/llm/filter` are an arbitrary function from content to filtered content.
- Targets.BuildTargets: how the library reads IPv6 addresses is an arbitrary function, error texts are one error, and local-network discovery is a parameter. File feeders are left out. `PercentageComplete` is floating-point display data.
- ScanRun.RunKeepsInv: banners and host keys in a row, the duration, the scan id and the feature gate are not modelled; progress events carry the total of a sweep whose targets are known.
- Sessions.ClaimedAndClosedOnce: terminal output, the kill of the child process and handles other than the one closed are not modelled; each locked section and each group of close calls is one step.
- The goroutines that run WinRM lines after they are completed, and the order of their output.
- Wall-clock time, tickers and timeouts: each is a step that may come at any moment.
- Provider adapters, the catalog table, configuration files, audit logging, clipboard, user interface and generated bindings carry no algorithm of their own.
- The elevation plan, release directories and list edits of the other stores are settled by reading their branches.
