# Corporate proxy extension and its packaging tools, verified

This project models the hardest logic of a corporate proxy product: the browser extension that
routes traffic, and the server that packages and configures it. It proves what that logic is
relied on for. Every module documents its own modelling decisions.

| modules | what they model |
|---|---|
| `Glob`, `UserRules`, `PacBlock`, `PacInjection` | the compiler from user rules to PAC lines, its splice into a script, and a reader for what it writes |
| `RulePatterns`, `HostRouting`, `UserRuleList` | the popup's rule list, the service worker's own rule interpreter, and their agreement with the compiler |
| `PacSanitizer` | the rewriting of a PAC script to plain ASCII |
| `ProxyControl` | the service worker as a transition system over event-loop turns: bypass, alarm, restarts, script addresses, every write of the proxy setting |
| `BypassSafety`, `BypassLiveness`, `ScriptSafety` | what its runs keep: bypass means direct, bypass ends, switched off means direct, untrusted scripts stay out |
| `ProxyWorker` | its handlers as they assign variables |
| `SyncQueue`, `ChallengeStorm` | the promise chain of synchronisations with its error handlers, and the two-second guard against challenge storms |
| `ProxyAuth`, `ChallengeAnswers` | the answers to proxy authentication challenges, alone and together with the queue that synchronises for them |
| `Registers`, `Crc32`, `PngChunk` | the table-driven CRC-32 and PNG chunk writer against RFC 2083 |
| `Fields`, `Streams`, `Ustar` | the tar writer against a strict reader for the ustar Interchange Format of IEEE Std 1003.1 |
| `Decimals`, `PeVersion` | parsing, patching and re-reading version stamps of Windows binaries |
| `TemplateRepair` | the self-repair of binary templates over an abstract file map |
| `Sessions` | the session store with sliding expiry and background cleanup |
| `AtomicReplace` | many writers replacing one file by rename, with crashes, and readers |
| `RoutingPresets` | the merge of built-in presets into the stored list, and its cache |
| `Runs` | transition systems in general: finite runs, invariants, and which events are to blame when one is lost |
| `Wrappers`, `Sequences`, `Bytes`, `Text`, `Readers` | shared types, text operations and list lemmas |

The modules follow one pattern. A specification is a function or a transition system; code that
assigns variables, fills buffers or loops in the original is a method or a class proved to do
exactly what the specification says; and the theorems are about the specification.

Eight results say that the code does less than one might expect, and exactly when:

* A bypass means a direct connection under every interleaving if and only if no retry with the
  stored script resumes while the bypass is on (`BypassSafety.BypassMeansDirect`). The exception is
  real (`BypassSafety.LateRetryHappens`): extension/background.js:955-963 writes the setting after an
  await without looking at the flag again.
* A script that is being prepared when the proxy is switched off is still put in afterwards: the
  preparation looks at the bypass only (`ScriptSafety.OffMeansDirect`, `ScriptSafety.ScriptUndoesOffHappens`).
* The forced synchronisations that challenges start are two seconds apart if and only if none begins
  unprotected, that is, shortly after another whose credentials are not at hand
  (`ChallengeStorm.StormBound`). Success of the synchronisations is not enough for that: a lookup in
  session storage that was asked before can be answered after (`ChallengeStorm.SuccessIsNotEnough`).
  Success without such late lookups is enough (`ChallengeStorm.SuccessProtects`), and each of them
  opens a way to break the spacing (`ChallengeStorm.LateIsToBlame`). No spacing outlives the worker
  (`ChallengeStorm.RestartLetsNextStart`).
* A request gets at most two credential answers in a row while its entry is kept in the record; with
  a crowd of other requests every minute it gets any number (`ProxyAuth.AnyNumberInARow`).
* Interpreter and compiled script read the same action alike only in part: the interpreter knows the
  lower-case spellings only, the popup stores upper case (`HostRouting.ActionAgreement`).
* A version can be stamped only below 32768 in its first and third number; beyond, patching fails or
  stamps another version (`PeVersion.RepairSucceeds`).
* A list of presets saved directly agrees with what the store yields afterwards exactly if the write
  succeeds and the list lacks no built-in domain, or the write fails and the store yielded that list
  before (`RoutingPresets.CacheAgreesAfterSave`).
* Sanitising a PAC script turns each quoted text into what it should become if and only if URL parsing
  puts no quote into a host name (`PacSanitizer.SanitizedLiterals`); for the fullwidth quotation mark
  the URL Standard does, and the quoted text falls apart (`PacSanitizer.LiteralFallsApart`).

Where code and documentation disagree the code is followed. extension/background.js:1111 calls
`reapplyProxyState`, which is not defined anywhere; the error is swallowed, so nothing is written.

## Model

| member | source | states |
|---|---|---|
| `UserRules.CleanPattern` | src/extensionPureLogic.ts:84-153 | the compiled pattern is ASCII, and a pattern that was ASCII holds no quote, backslash or line break |
| `UserRules.CleanPatternQuotable` | src/extensionPureLogic.ts:84-153 | no compiled pattern at all holds one, unless the host parser itself puts it into a host name |
| `UserRules.ConditionIsMeaning` | src/extensionPureLogic.ts:168-180 | on a lower-case host, the printed disjunction of equality, suffix and glob tests holds exactly of the hosts the pattern covers |
| `UserRules.FirstApplicableDecides` | src/extensionPureLogic.ts:83-183 | for every rule list the compiled lines answer with the directive of the first enabled rule that applies, or not at all |
| `UserRules.EveryDirectiveFallsBack` | src/extensionPureLogic.ts:155-166 | every rule's directive falls back to a direct connection, or blocks or loops back on purpose |
| `PacBlock.BlockReads` | src/extensionPureLogic.ts:81-184 | a block read back from its text yields its rules if and only if no pattern or directive needs escaping |
| `PacInjection.InsertedBehindBrace` | src/extensionPureLogic.ts:186-196 | the block always goes right behind an opening brace |
| `PacInjection.CleanedPattern` | src/extensionPureLogic.ts:84-153 | the step-by-step cleaning computes the cleaned pattern |
| `PacInjection.AppendLines` | src/extensionPureLogic.ts:83-183 | the loop appends one line per active rule with a non-empty pattern, in order |
| `PacInjection.InjectUserRulesIntoPac` | src/extensionPureLogic.ts:41-197 | the result is the script with the compiled block spliced in, or the script itself in each of the no-op cases |
| `PacInjection.CompiledQuotable` | src/extensionPureLogic.ts:99 | which rules compile to patterns and directives that a literal can hold |
| `PacInjection.RemovalRestores` | src/extensionPureLogic.ts:186-196 | deleting the inserted text gives back the original script |
| `PacInjection.InjectedBlockReads` | src/extensionPureLogic.ts:81-196 | the injected text reads back as the compiled rules followed by the rest of the script, if and only if its emitted patterns and the default directive are quotable |
| `PacInjection.ScriptMeaning` | src/extensionPureLogic.ts:41-197 | whatever the base script computes, the injected one returns the directive of the first applicable rule, and else what the base returns on the lower-cased host |
| `PacInjection.QuotableAsParsed` | src/extensionPureLogic.ts:110-151 | a pattern beyond ASCII that needs no other cleaning is quotable exactly if the host name is that the parser makes of it |
| `PacInjection.UnquotableHostName` | src/extensionPureLogic.ts:118-119 | the fullwidth quotation mark, read as the URL Standard has it, makes an unquotable pattern |
| `RulePatterns.AcceptedShape` | extension/popup.js:879-904 | every accepted pattern but the star is a wildcard prefix, a plain host text and possibly a mask |
| `HostRouting.FirstProfileRule` | extension/background.js:384-396 | the nested loops find the first profile rule with a matching domain |
| `HostRouting.EvaluateHostRouting` | extension/background.js:369-400 | user rules decide before profile rules, and these before the default policy, each list by its first match |
| `HostRouting.PatternAgreement` | extension/background.js:337-366 | for every pattern the popup accepts and every non-empty trimmed host, compiled condition and interpreter agree, except on the bare star, where they differ on exactly the hosts named |
| `HostRouting.SameRule` | extension/background.js:374-381 | out of every list of accepted patterns without the star, both sides pick the same rule |
| `HostRouting.ActionAgreement` | extension/background.js:378 | for which spellings of an action both sides send traffic the same way |
| `UserRuleList.AddedKeeps` | extension/popup.js:906-969 | adding keeps every stored pattern accepted, lower-case and unique, and the list within its limit |
| `UserRuleList.RuleList.AddRule` | extension/popup.js:906-969 | the in-place update of the list: re-enabled, appended or refused |
| `UserRuleList.RuleList.DeleteRule` | extension/popup.js:870-875 | removes exactly the indexed rule and ignores other indices |
| `UserRuleList.ScriptFollowsInterpreter` | extension/background.js:369-381 | on every list built by the popup without the star, the injected script acts on the rule the interpreter picks |
| `UserRuleList.PopupPatternsArePlain` | extension/popup.js:879-904 | patterns stored by the popup never need escaping in the injected script |
| `PacSanitizer.CleanCommentLines` | src/extensionPureLogic.ts:222-232 | the in-place pass over the lines cleans every comment and nothing else |
| `PacSanitizer.SanitizePacScript` | src/extensionPureLogic.ts:205-272 | the three passes in sequence, with every null result |
| `PacSanitizer.Sanitize` | src/extensionPureLogic.ts:205-271 | every non-null result is seven-bit and contains FindProxyForURL; ASCII input that contains it comes back as it is |
| `PacSanitizer.Idempotent` | src/extensionPureLogic.ts:205-272 | sanitising a result again changes nothing |
| `PacSanitizer.PlainDeletion` | src/extensionPureLogic.ts:205-272 | if no quoted text is non-ASCII after the comment pass, the result is the input minus its non-ASCII characters, or null if the entry point is missing before or after |
| `PacSanitizer.LiteralPassIsLocal` | src/extensionPureLogic.ts:236-260 | for every rewriting of contents, the literal pass rewrites each quoted text by itself if and only if no rewritten text holds a quote; then it touches nothing around them |
| `PacSanitizer.SanitizedLiterals` | src/extensionPureLogic.ts:236-266 | of a script that is not ASCII, the quoted texts become their host names in punycode, one by one, if and only if URL parsing puts no quote into any of them |
| `PacSanitizer.LiteralFallsApart` | src/extensionPureLogic.ts:249-252 | with the fullwidth quotation mark, read as the URL Standard has it, the sanitised script has another quoted text than it should |
| `ProxyControl.InitiallySound` | extension/background.js:54-70 | a worker that has never run satisfies the invariants, so what follows holds of every reachable state |
| `ProxyControl.BypassIsTemporary` | extension/background.js:1625-1636 | in every reachable state the flag is set exactly while an expiry is, and a bypass has its alarm, its handler or a startup check ahead of it |
| `BypassSafety.InitiallyRespected` | extension/background.js:54-70 | a worker that has never run violates no bypass |
| `BypassSafety.BypassMeansDirect` | extension/background.js:816-937 | in every run, at the end of every turn a bypass means the last write was direct, if and only if no late retry resumes under a bypass |
| `BypassSafety.OnlyLateRetryViolates` | extension/background.js:951-963 | one step breaks the above exactly if it is the late retry |
| `BypassSafety.LateRetryStrikes` | extension/background.js:951-963 | from every state with a script being installed, a bypass switched on can be undone |
| `BypassSafety.LateRetryHappens` | extension/background.js:951-963 | such a state is reached from the initial one |
| `BypassLiveness.BypassEnds` | extension/background.js:1786-1823 | every fair endless run leaves bypass again and again, across worker restarts and lost alarms |
| `BypassLiveness.LastingBypassStep` | extension/background.js:1099-1121 | while a bypass lasts nothing arms the alarm anew, and a started worker has the alarm or a handler |
| `BypassLiveness.HandlersRunOut` | extension/background.js:1786-1801 | the first handler gone after the alarm leaves a lasting bypass unattended |
| `ScriptSafety.OnlyScriptsUndoOff` | extension/background.js:919-963 | one step makes a switched-off, direct setting something else exactly if it puts in a script |
| `ScriptSafety.OffMeansDirect` | extension/background.js:919-937 | once switched off and direct, the setting stays direct until switched on again, across worker restarts, if and only if no script prepared before is still put in |
| `ScriptSafety.ScriptUndoesOff` | extension/background.js:825-937 | from every state with a script waiting for the user rules, switching the proxy off is undone by it |
| `ScriptSafety.ScriptUndoesOffHappens` | extension/background.js:825-937 | a switched-off proxy with a script put in is reached from the initial state |
| `ScriptSafety.UntrustedScriptsStayOut` | extension/background.js:270-289 | in every run in which all addresses are plain http and of another origin than every server base the worker has meanwhile, no script is ever prepared or put in |
| `ProxyWorker.Worker.ApplyPacScript` | extension/background.js:753-786 | checks the address against the current base, then begins the download or uses the cached script |
| `ProxyWorker.Worker.Install` | extension/background.js:919-937 | writes the script only if no bypass is on at that moment |
| `ProxyWorker.Worker.ApplyProxyConfig` | extension/background.js:1001-1085 | the branches over bypass, kill switch, protocol, PAC trust and fixed servers make exactly the step of the specification |
| `ProxyWorker.Worker.ApplyProxySettings` | extension/background.js:989-998 | applies the last configuration, or one from the shown state |
| `ProxyWorker.Worker.ExpireBypass` | extension/background.js:1099-1115 | ends the bypass, stores that, and reapplies the last configuration if there is one |
| `ProxyWorker.Worker.CheckAtStartup` | extension/background.js:1814-1823 | ends a restored bypass exactly if its alarm was not seen |
| `ProxyWorker.Worker.OnBypassAlarm` | extension/background.js:1786-1801 | the alarm handler's turn |
| `ProxyWorker.Worker.OnToggleBypass` | extension/background.js:1619-1650 | the toggle message's turn, or nothing where policy forbids it |
| `ProxyWorker.Worker.OnSetEnabled` | extension/background.js:1567-1583 | the enable message's turn, or nothing where policy forbids switching off |
| `ProxyWorker.Worker.OnReapply` | extension/background.js:1579-1583 | the turn in which the store has answered and the configuration is applied again |
| `ProxyWorker.Worker.OnSyncAnswer` | extension/background.js:1290-1343 | the turn in which a configuration arrives |
| `ProxyWorker.Worker.OnPacDownloaded` | extension/background.js:763-821 | the turn in which a script arrives or fails to |
| `ProxyWorker.Worker.OnPacBackupRead` | extension/background.js:802-821 | the turn in which the stored script is found or not |
| `ProxyWorker.Worker.OnPacRulesRead` | extension/background.js:827-937 | the turn in which the user rules are read and the script goes in |
| `ProxyWorker.Worker.OnPacInstalled` | extension/background.js:924-955 | the turn in which the browser accepts the script or refuses it |
| `ProxyWorker.Worker.OnPacRefused` | extension/background.js:951-963 | the retry after a refused script |
| `SyncQueue.QueueSerialises` | extension/background.js:1158-1173 | in every run of the promise chain, whatever fails: at most one synchronisation is on the network, calls begin and callers are told in call order, once each, and what one was told stays |
| `SyncQueue.EveryCallerGetsHisOwn` | extension/background.js:1158-1173 | no link is ever rejected and no callback skipped; a caller who is told anything is told the outcome of his own call, which was executed |
| `SyncQueue.QueueDrains` | extension/background.js:1158-1173 | failures included, a queue left to itself takes finitely many steps and is stuck only when every call was executed and every caller told |
| `SyncQueue.FailureUnblocks` | extension/background.js:1161-1171 | from every state in which a synchronisation fails, its caller hears of it and the next call can begin |
| `SyncQueue.UnguardedQueueStops` | extension/background.js:1161-1171 | without the inner catch and the outer one, no call behind a failed one is ever executed or answered; either suffices for the results above |
| `SyncQueue.UnguardedFromTheStart` | extension/background.js:1161-1171 | every worker has such runs from its start on |
| `SyncQueue.BeginsAlone` | extension/background.js:1181-1194 | whenever a call begins, syncPromise is null and nothing is on the network |
| `SyncQueue.WhoReachesTheServer` | extension/background.js:1175-1212 | in every run, which calls go to the server and which are answered from the credentials at hand; a forced call with the user's choice of a proxy always goes |
| `SyncQueue.NeverReturnsNull` | extension/background.js:1394-1398 | a caller who is not refused is never handed missing credentials |
| `SyncQueue.SyncWorker.SyncWithServer` | extension/background.js:1158-1173 | a new call joins the chain untouched |
| `SyncQueue.SyncWorker.ExecuteSync` | extension/background.js:1175-1212 | the branches up to the first wait make exactly the queue's step |
| `SyncQueue.SyncWorker.Proceed` | extension/background.js:1195-1212 | answers from fresh credentials or clears memory and session storage and starts a synchronisation |
| `SyncQueue.SyncWorker.StoreCreds` | extension/background.js:1276-1288 | credentials are stored in memory and session storage with the time they came |
| `SyncQueue.SyncWorker.EndNetwork` | extension/background.js:1394-1401 | syncPromise is cleared before the call settles |
| `SyncQueue.SyncWorker.FinishCallback` | extension/background.js:1162-1167 | the caller is resolved, or rejected by the inner catch, and the link goes on fulfilled |
| `SyncQueue.SyncWorker.CatchBehindCallback` | extension/background.js:1169-1171 | the outer catch lets a fulfilled callback pass and rejects the caller of a rejected one |
| `ChallengeStorm.StormBound` | extension/background.js:1185-1210 | in every run the forced synchronisations that challenges start are two seconds apart if and only if none begins unprotected; then at most 1 + T / 2000 of them start in T ms |
| `ChallengeStorm.OnlyUnprotectedBreaks` | extension/background.js:1195-1198 | one step breaks the spacing exactly if a challenge's call begins within two seconds of the last start with no credentials at hand or old ones; these are older than that start |
| `ChallengeStorm.SuccessProtects` | extension/background.js:1195-1210 | if synchronisations succeed and no storage lookup brings back credentials older than the last start within two seconds of it and behind what it fetched, none begins unprotected |
| `ChallengeStorm.LateIsToBlame` | extension/background.js:1195-1210 | after every such run that has served its calls, one more event opens such a way to break the spacing if and only if it is such a lookup |
| `ChallengeStorm.LateWasAskedBefore` | extension/background.js:1448-1457 | in every run such a lookup was asked before the last start |
| `ChallengeStorm.SuccessIsNotEnough` | extension/background.js:1448-1457 | a worker that finds valid but not fresh credentials in session storage has a run in which every synchronisation succeeds, lookups are answered in order, and two starts are too close |
| `ChallengeStorm.LateLookupLetsNextStart` | extension/background.js:1452-1457 | from every state with such a lookup on its way behind a start, it can be |
| `ChallengeStorm.FailureHappens` | extension/background.js:1201-1210 | every worker that starts has a run in which a synchronisation fails and two starts are too close |
| `ChallengeStorm.FailureLetsNextStart` | extension/background.js:1201-1210 | from every state with a failing start, the next comes at once |
| `ChallengeStorm.RestartLetsNextStart` | extension/background.js:1195 | a worker that starts within two seconds of the last start before it can start at once |
| `ChallengeStorm.WindowBound` | extension/background.js:1195 | starts spaced by two seconds number at most 1 + T / 2000 in any window |
| `ProxyAuth.ExactlyOneAnswer` | extension/background.js:1405-1493 | in every run a challenge has exactly one answer once its handler has nothing to wait for, and none before |
| `ProxyAuth.NeverThreeInARow` | extension/background.js:1423-1434 | unless its entry is dropped, a request never gets three credential answers without a refusal between |
| `ProxyAuth.RepeatedChallenge` | extension/background.js:1424-1476 | the first challenge of a request is answered from memory, or waits for session storage or an unforced synchronisation; the second in a row always waits for a forced one; the third is refused |
| `ProxyAuth.DroppedEntryStartsOver` | extension/background.js:1416-1422 | if its entry is dropped the count starts over, from every such state |
| `ProxyAuth.AnyNumberInARow` | extension/background.js:1416-1446 | from the initial state a request can get any number of credential answers in a row, if other requests crowd the record again and again |
| `ProxyAuth.SeenBounded` | extension/background.js:1416-1425 | after a challenge the record has at most 101 entries, or none older than a minute |
| `ProxyAuth.AuthHandler.Prune` | extension/background.js:1416-1422 | the loop keeps exactly the entries of the last minute |
| `ProxyAuth.AuthHandler.OnAuthRequired` | extension/background.js:1405-1493 | the handler's first turn: refuse, answer from memory, ask session storage, or synchronise |
| `ProxyAuth.AuthHandler.OnSessionRead` | extension/background.js:1452-1473 | the turn in which session storage answers: valid credentials go into memory and to the browser, else an unforced synchronisation follows |
| `ProxyAuth.AuthHandler.OnSynced` | extension/background.js:1479-1491 | the turn in which the synchronisation settles |
| `ChallengeAnswers.BothAreRuns` | extension/background.js:1403-1493 | handler and queue together, sharing the credentials in memory, do nothing that either does not do alone |
| `ChallengeAnswers.ToldHisOwn` | extension/background.js:1478-1491 | what a waiting challenge is told is the outcome of a synchronisation of its own, forced if it was a repeated one: credentials if and only if that did not fail |
| `ChallengeAnswers.EveryChallengeAnswered` | extension/background.js:1403-1493 | from every reachable state, failures included: without new challenges and calls only finitely many steps are left, and when none is, every challenge has had exactly one answer |
| `ChallengeAnswers.ChallengesStaySpaced` | extension/background.js:1185-1210 | however many challenges arrive, without failures and late lookups at most 1 + T / 2000 forced synchronisations start for them in T ms |
| `Crc32.TableStep` | scripts/generate-icon-pack.ts:32 | one table step equals eight shift steps fed with the byte's bits |
| `Crc32.TableCrc.FillTable` | scripts/generate-icon-pack.ts:22-29 | the loops fill all 256 entries with what eight shifts give |
| `Crc32.TableCrc.Crc32` | scripts/generate-icon-pack.ts:20-34 | the loop computes the bit-serial checksum of section 3.4 of RFC 2083, for every message |
| `Crc32.BurstDetected` | scripts/generate-icon-pack.ts:20-34 | two messages of equal length that differ only within 32 consecutive bits have different checksums |
| `Crc32.FourByteBurstDetected` | scripts/generate-icon-pack.ts:20-34 | the same for four consecutive bytes |
| `PngChunk.ChunkRoundTrip` | scripts/generate-icon-pack.ts:36-44 | a written chunk reads back as itself, whatever follows |
| `PngChunk.StreamRoundTrip` | scripts/generate-icon-pack.ts:36-44 | so does a list of chunks |
| `PngChunk.DamageRefused` | scripts/generate-icon-pack.ts:36-44 | a chunk damaged within 32 consecutive bits of type and data is refused |
| `PngChunk.WriteUInt32BE` | scripts/generate-icon-pack.ts:38-42 | the four bytes stored, or nothing for a number that does not fit |
| `PngChunk.WriteChunk` | scripts/generate-icon-pack.ts:36-44 | the writer yields the chunk, or a range error for data that is too long |
| `Ustar.NumberReadsBack` | src/appPackager.ts:711-722 | a number field reads back exactly when its number leaves room for the terminator |
| `Ustar.NameReadsBack` | src/appPackager.ts:709-710 | a name reads back exactly when it has at most 100 bytes, none NUL |
| `Ustar.ChecksumFits` | src/appPackager.ts:731-737 | the checksum of every header fits six octal digits |
| `Ustar.EntryReadsBack` | src/appPackager.ts:704-746 | a packed file reads back as itself exactly when its header has room for it |
| `Ustar.ArchiveRoundTrip` | src/appPackager.ts:701-751 | an archive reads back as its files, in order, if and only if every header has room for its file |
| `Ustar.DamagedHeaderRefused` | src/appPackager.ts:731-737 | an accepted header with one byte changed outside the checksum is refused |
| `Ustar.WriteHeader` | src/appPackager.ts:705-737 | the in-place writes and the checksum loop produce the header block |
| `Ustar.CreateTar` | src/appPackager.ts:701-750 | the loop over the files produces the archive |
| `PeVersion.VersionRoundTrip` | src/appPackager.ts:1721-1743 | a printed version parses back to itself |
| `PeVersion.PatchPeBinaryVersion` | src/appPackager.ts:1582-1596 | the buffer after patching, in every case: no stamp, success, and a range error at the first or the second number |
| `PeVersion.WriteUInt32LE` | src/appPackager.ts:1591-1594 | the four bytes stored, or nothing for a negative number |
| `PeVersion.PatchIsLocal` | src/appPackager.ts:1585-1594 | only the sixteen version bytes change and the first signature stays where it is |
| `PeVersion.PatchThenExtract` | src/appPackager.ts:1569-1596 | a successful patch reads back as the low sixteen bits of each number |
| `PeVersion.PatchRoundTrip` | src/appPackager.ts:1569-1596 | within range patching succeeds and reads back as the version |
| `PeVersion.TextBeginsWith` | src/appPackager.ts:2989 | one version text begins with another only if all but the last number agree and that one is not smaller |
| `PeVersion.PatchedPasses` | src/appPackager.ts:2989-2997 | a patched binary passes the check exactly when the version fits |
| `PeVersion.RepairSucceeds` | src/appPackager.ts:2987-2997 | after the check's repair a binary passes if and only if it passed before or has a stamp and a version that fits |
| `TemplateRepair.NothingGoodIsLost` | src/appPackager.ts:95-109 | however copies end, torn ones included, a pass leaves usable files and signed protected files as they were |
| `TemplateRepair.PassConverges` | src/appPackager.ts:76-124 | if copies succeed, a copy ends usable exactly if it was, or if any of the four was and it is not a signed protected file below 1000 bytes |
| `TemplateRepair.SecondPassIsIdle` | src/appPackager.ts:76-124 | a second pass copies nothing |
| `TemplateRepair.RepairRestores` | src/appPackager.ts:111-122 | the same for one directory and one binary, touching no other file |
| `TemplateRepair.Templates.CanUseAsSource` | src/appPackager.ts:91-100 | the test for a usable file |
| `TemplateRepair.Templates.CopySafely` | src/appPackager.ts:102-109 | a copy is made only from a usable file and never over a signed protected one |
| `TemplateRepair.Templates.RepairBinary` | src/appPackager.ts:111-122 | the four cases change the files as the specification says |
| `TemplateRepair.Templates.EnsurePristineTemplates` | src/appPackager.ts:57-124 | the loops make one pass over the existing directories |
| `Sessions.CleaningUnobservable` | src/auth.ts:35-103 | after any history with a monotone clock, every answer but that of revoking is the one of a store that never cleans |
| `Sessions.RevokeTellsApart` | src/auth.ts:69-72 | revoking tells the two apart if and only if the session had lapsed and was swept away since; it succeeds exactly on sessions created, not ended and not swept |
| `Sessions.RevokedInVain` | src/auth.ts:69-72 | it happens |
| `Sessions.ValidIffTouched` | src/auth.ts:46-67 | a session validates if and only if it was created, not revoked or cleared since, and never left alone longer than the time to live |
| `Sessions.ExpiryIsLastTouch` | src/auth.ts:74-78 | while it validates, its expiry is its last touch plus the time to live |
| `Sessions.AdminSessions.ValidateAdminSession` | src/auth.ts:57-67 | validation slides the expiry or drops the expired session |
| `Sessions.AdminSessions.CreateAdminSession` | src/auth.ts:46-51 | a new session and its expiry |
| `Sessions.AdminSessions.RevokeAdminSession` | src/auth.ts:69-72 | removes the session and reports whether there was one |
| `Sessions.AdminSessions.GetSessionExpiry` | src/auth.ts:74-78 | the expiry of an unexpired session |
| `Sessions.AdminSessions.GetSessionUsername` | src/auth.ts:80-85 | the user of an unexpired session |
| `Sessions.AdminSessions.ClearAllSessionsExcept` | src/auth.ts:97-103 | the loop leaves the kept session only |
| `Sessions.AdminSessions.CleanUp` | src/auth.ts:36-43 | the loop drops exactly the expired sessions |
| `AtomicReplace.NeverTorn` | src/jsonStore.ts:14-58 | in every run with any number of writers and crashes, the target is never torn, never missing off Windows, and backed by a complete temporary file while missing on Windows |
| `AtomicReplace.OldOrNew` | src/jsonStore.ts:21-30 | the target holds what it held at the start or what the latest rename put there, which is the whole data of one writer |
| `AtomicReplace.ReadersSeeWholeData` | src/jsonStore.ts:65-80 | a reader gets whole data or finds nothing; it finds a broken file only if the target was unlinked between its two looks |
| `AtomicReplace.Files.WriteFileAtomic` | src/jsonStore.ts:37-58 | the sequence of file operations is a run of the transition system, leaves the new data in place if it returns, and keeps a complete copy if the target is gone |
| `RoutingPresets.MergeCompletes` | src/storage.ts:98-112 | after a merge every built-in domain is present, and no item, domain or entry is lost |
| `RoutingPresets.MergeReachesFixedPoint` | src/storage.ts:98-112 | a second merge changes nothing; a list is a fixed point exactly if no built-in domain is missing |
| `RoutingPresets.StoredOrderKept` | src/storage.ts:106-108 | an item is unchanged or keeps its lists in order, repeats removed, in front of what is added |
| `RoutingPresets.OthersUntouched` | src/storage.ts:99-111 | an item that is not the first built-in match of a preset is not touched |
| `RoutingPresets.NothingForeign` | src/storage.ts:107-108 | an item gains only domains of presets with its id |
| `RoutingPresets.MergeGeo` | src/storage.ts:99-111 | the overwriting of one item in place, and when it counts as an update |
| `RoutingPresets.MergeBuiltins` | src/storage.ts:97-112 | the loop over the presets computes the merge and reports exactly whether the list changed |
| `RoutingPresets.CacheAgreesAfterLoad` | src/storage.ts:90-143 | after a load the cached list is what reading the store again gives, even if the write of a merged list failed |
| `RoutingPresets.SecondLoadIsIdle` | src/storage.ts:90-123 | a second load from the store changes and writes nothing |
| `RoutingPresets.CacheAgreesAfterSave` | src/storage.ts:83-88 | a direct save agrees with the store exactly if its write succeeds on a non-empty list that lacks no built-in domain, or fails while the store yields that list anyway |
| `RoutingPresets.PresetStore.SaveRoutingPresets` | src/storage.ts:83-88 | cache and file after a save |
| `RoutingPresets.PresetStore.GetRoutingPresets` | src/storage.ts:90-143 | a cached answer, a merged list or a seeded one, with the cache and file left behind |

## Left out

Taken as parameters or as the environment's choice:

* `new URL(text).hostname` is an uninterpreted function; the agreement theorems hold for every such function.
* The regular expression that finds the current directive (src/extensionPureLogic.ts:61) is an input string, empty when it does not match.
* Network responses, storage reads, file operations, clocks and signatures: every result is possible.
* The parsing of an Authenticode directory (src/appPackager.ts:28-55) is a predicate on files.
* Library functions: gzip, deflate, scrypt, hashes, random ids. Random temporary names and session ids do not collide.

Narrower than the original:

* Letters are mapped between cases in ASCII only, and characters are Unicode scalar values, not UTF-16 units. `shExpMatch` is a glob of `*` and `?` over the whole host.
* Only the copy of the rule injector in src/extensionPureLogic.ts is modelled. The one in extension/background.js falls back differently when no header is found and knows one more protocol word.
* A base script is a function of the URL and the host, so a host assigned in front of it is all it sees of the block.
* ProxyControl lets a synchronisation start in any turn, which covers every order the queue allows and more. Badges, logs and the check of the applied setting are left out.
* ProxyAuth takes from the browser that a request has no second challenge while one is unanswered, and that its callback does not throw.
* SyncQueue and ChallengeAnswers cover one worker lifetime. Operations on session storage take effect in the order they are issued. The code that waits for a synchronisation in flight is in its transition system, where it is proved never to be reached; its two resumptions have no method.
* An address is known by its scheme and origin, a server base by its origin; how they are parsed is left out.
* Sizes and version numbers are exact integers; JavaScript rounds beyond 2^53.
* The presets' built-in list has distinct ids, as src/defaultPresets.ts has.
* Callers that change a returned preset list, which is the cached one, are left out, as is the copying of a broken store for later inspection.
- PngChunk.WriteChunk: does not model characters above 255 in a chunk type, because the generator passes four ASCII letters; the round trip needs four.
- Sessions.CleaningUnobservable: leaves out the answer of revoking, because the original's boolean does depend on the background task; Sessions.RevokeTellsApart says exactly when.

Not modelled, as easy or foreign:

* The dashboard, rendering, translation and theming; canvas drawing.
* Server routes, configuration and environment reading, the packaging of the extension itself.
* Compilers, installers and signing tools that the packager drives.
* Logs and audit ring buffers.
