# Verified models of the Packet Tracer MCP repository

The repository drives Cisco Packet Tracer from an MCP server: a webview and a script engine
execute commands, Python use cases plan and qualify topologies, and scripts gate the
repository's own history. This project models the parts of it that are protocols or
transformations, and proves what they promise for every input and every run. Packet Tracer,
Git, the file system, `ast.parse` and SHA-256 appear as inputs: values they return, or the
fact that they fail.

| Part | Modules |
|---|---|
| Exempting mechanical rewrites from the quality gate | `Utf8`, `SourceIndex`, `Splice`, `SpliceOrder`, `NamespaceRewrite`, `RewriteSites`, `Classifier`, `LineEndings`, `QualityGate` |
| Command polling in the webview | `Polling`, `PollingTiming` |
| Quick Build topologies and static routes | `QuickBuild`, `QuickBuildRouting`, `QuickBuildCabling` |
| The file mailbox of the script engine | `Mailbox` |
| Terminal obligations, configuration stages and governed runs | `Finalization`, `DhcpReassertion`, `DhcpEvidence`, `ConfigurationStage`, `GovernedRun`, `GovernedGuards` |
| Escaping, naming and the run ledger | `JsEscape`, `Naming`, `VoiceLedger` |
| Shared | `Outcomes`, `Sequences`, `Characters`, `Replacing`, `StableSort` |

`dafny verify dfyconfig.toml` checks everything. No proof depends on automatic induction:
`--manual-lemma-induction` may be added.

Code that updates variables in loops or objects in place is a method or a class proved against
a function of its inputs; the promises are lemmas about that function, or the method's own
postconditions. Exceptions are outcomes, and where it matters the model separates an
`Exception` from an interruption such as `KeyboardInterrupt`.

Some promises of the code's comments turned out to hold only under a condition. The code is
modelled as it is, and the exact condition is proved:

- The order of the list given to `_apply` is irrelevant exactly when two sites overlap, so that
  every order is refused, or when all sites that start together are insertions whose texts
  commute (`OrderIrrelevantIff`). The rename makes nonempty spans only, since its legacy name is
  nonempty, and is therefore never affected (`ApplyIgnoresOrder`).
- A tick of the file mailbox arms its successor unless an executed command throws a value that
  has no string form, such as `Object.create(null)`: the conversion in the `catch` throws
  again (`EscapesIff`). When that happens in a tick fired by a timer the loop is dead, and
  starting it again does nothing until a clean-up, because the spent timer is still held
  (`UnprintableStopsTheLoop`, `DeadUntilCleanUp`). In the very first tick no timer is held yet,
  and the next start ticks again.
- `safe_name_component` is not idempotent: cutting at a hundred characters can leave a name it
  would itself replace (`IdempotentIff`, `NotIdempotent`).
- The ledger accepts a commit id followed by a newline, because `$` matches before it
  (`LedgerHeads`, `NewlineHeadIsRecorded`).
- A configuration stage whose scope policy raises `ValueError` with an empty text counts as
  accepted although it stopped (`SilentStopIsAccepted`); with the repository's own policies
  that cannot happen (`GovernedNeverStopsSilently`).
- A governed run deletes its fixture and stops the bridge under every `Exception`. Under an
  interruption it deletes the whole fixture exactly when nothing was interrupted, from the
  restoration on, before the last deletion had been asked for, and otherwise a part of it, last
  device first; it stops the bridge exactly when the restoration was not interrupted before that
  (`Execute`). A run interrupted while it reads the restored power leaves every device and the
  bridge behind (`InterruptedReadback`).
- A star without routers still places its hub and gives it port index -1 (`LanPortFree`); a
  cloud or servers without router positions get cables that end at nothing
  (`CablesJoinAddedDevices`). The form's slider starts at one router
  (EXTENSION/webview/index.html:1153), so only a direct caller of `buildQBScript` meets this.
- A healthy polling chain can trip its watchdog once timers are late by 11.5 seconds or more,
  and never below that (`HealthyNeverTrips`, `HealthyCanTrip`). A late response of an older
  chain is still executed and still counts as a sign of life, so it puts off the rescue of a
  lost chain (`StaleLoadPostpones`), which takes up to 33 seconds instead of 25; both bounds
  are exact (`LostChainReplaced`, `LostChainCanWait`). That needs a second `startPolling` by
  the page, as `pollCommands` makes when called without an argument; after restarts of the
  watchdog alone no older request is left (`OwnRestartsLeaveNothing`).

## Model

| member | source | states |
|---|---|---|
| Utf8.DecodeEncode | scripts/mechanical_migration.py:792-818 | Strict UTF-8 decoding (RFC 3629, sections 3 and 4) undoes encoding for every text |
| Utf8.EncodeDecode | scripts/mechanical_migration.py:792-818 | A byte string that decodes is the encoding of what it decodes to, so each text has one spelling |
| Utf8.DecodesIffEncoded | scripts/mechanical_migration.py:792-818 | The decoder accepts exactly the encodings of texts |
| Utf8.DecodeInjective | scripts/mechanical_migration.py:800-803 | Two decodable byte strings decode to the same text iff they are equal, as the comment claims |
| Utf8.EncodePrefix | scripts/mechanical_migration.py:198-209 | A text whose encoding is a prefix of another encoding is a prefix of that text: columns cut whole characters or none |
| SourceIndex.LinesWellFormed | scripts/mechanical_migration.py:181-196 | The CRLF, CR and LF line table reassembles the source, and no line body holds a terminator |
| SourceIndex.LinesUnique | scripts/mechanical_migration.py:181-196 | That split is the only well-formed one |
| SourceIndex.BuildIndex | scripts/mechanical_migration.py:187-196 | The loop over terminator matches builds exactly the table of the line split |
| SourceIndex.LineSlice | scripts/mechanical_migration.py:187-196 | Between its start and its end each line body stands in the source, and lines do not overlap |
| SourceIndex.OffsetAtBoundary | scripts/mechanical_migration.py:198-209 | On every character boundary the offset is that character's absolute position |
| SourceIndex.OffsetInverse | scripts/mechanical_migration.py:198-209 | An offset that exists lies in its line and measures back to the column it came from |
| SourceIndex.OffsetNoneIffCut | scripts/mechanical_migration.py:198-209 | On an existing line there is no offset exactly when the column cuts a character |
| SourceIndex.OffsetClamps | scripts/mechanical_migration.py:198-209 | Past the end of a line the offset is the end of its body |
| SourceIndex.OffsetMonotone | scripts/mechanical_migration.py:198-209 | Offsets follow the order of lines and columns, strictly across lines |
| Splice.Apply | scripts/mechanical_migration.py:374-388 | The sorted loop with its cursor computes the splice, and raises where the splice is refused |
| Splice.ApplyRaisesIff | scripts/mechanical_migration.py:374-388 | It succeeds exactly when of every two sites the one that starts earlier, or is listed first, ends before the other starts |
| Splice.ApplyRaisesIffOverlap | scripts/mechanical_migration.py:374-388 | With nonempty spans it raises exactly when two sites overlap |
| Splice.ApplyMeaning | scripts/mechanical_migration.py:374-388 | Otherwise the result is the source walked character by character with each site replaced, a reference that knows no order of sites |
| SpliceOrder.OrderIrrelevantIff | scripts/mechanical_migration.py:374-388 | Every permutation of the sites gives the same result or refusal iff two sites overlap or all that start together are insertions with commuting texts |
| SpliceOrder.EmptySpanOrderMatters | scripts/mechanical_migration.py:374-388 | An insertion and a replacement that start together fail that condition |
| Splice.ApplyUndone | scripts/mechanical_migration.py:374-388 | Splicing the shifted sites back into the result restores the base exactly |
| NamespaceRewrite.Rewrite | scripts/mechanical_migration.py:432-490 | The closure, with its loops and occurrence counters, computes the specified rewrite |
| NamespaceRewrite.SpanInSource | scripts/mechanical_migration.py:211-223 | A span that exists is ordered and inside the source |
| NamespaceRewrite.AliasSiteNamesLegacy | scripts/mechanical_migration.py:236-255 | An import site covers exactly the legacy name in the source and is replaced by the canonical one |
| NamespaceRewrite.ModuleSiteNamesLegacy | scripts/mechanical_migration.py:258-281 | So does the site of a `from` import, for any run of blanks |
| NamespaceRewrite.LiteralSiteNamesLegacy | scripts/mechanical_migration.py:297-317 | So does the site of a module literal in a call |
| NamespaceRewrite.RewriteRenames | scripts/mechanical_migration.py:449-490 | Base and result are the same pieces joined by the legacy and the canonical name, one joint per site |
| NamespaceRewrite.CollectDynamic | scripts/mechanical_migration.py:462-486 | The counter kept per key equals the number of earlier candidates with that key, and selects the sites by it |
| NamespaceRewrite.CandidatesInSourceOrder | scripts/mechanical_migration.py:462-470 | Sorting the candidates loses none and orders them by position |
| NamespaceRewrite.EntriesDistinct | scripts/mechanical_migration.py:462-486 | No two candidates claim the same audited entry |
| NamespaceRewrite.DynamicSitesBounded | scripts/mechanical_migration.py:443-487 | Dynamic rewrites never outnumber the audited entries of the file |
| NamespaceRewrite.UnknownBaseRewritesImportsOnly | scripts/mechanical_migration.py:443-461 | An unknown path or base fingerprint authorises no dynamic rewrite |
| RewriteSites.AliasSiteIff | scripts/mechanical_migration.py:236-255 | An `import` alias has a site exactly when it refers to the namespace and the source reads so at its position, with a boundary behind |
| RewriteSites.ModuleSiteIff | scripts/mechanical_migration.py:258-281 | An absolute `from` import has a site exactly when the source reads `from`, blanks and the namespace, with a boundary behind |
| RewriteSites.LiteralSiteIff | scripts/mechanical_migration.py:297-317 | A literal has a site exactly when it refers to the namespace and the source is that text in plain quotes |
| RewriteSites.OccurrenceIs | scripts/mechanical_migration.py:462-486 | The number in the entry of a candidate is the number of candidates of its key that come before it in the text, or at one place in the order of visit |
| RewriteSites.RewriteIsExact | scripts/mechanical_migration.py:449-490 | A rewrite has exactly one site for every alias, `from` import and audited literal that is to be renamed, told from nodes and source alone, and no other; it succeeds iff no two of them overlap, and then every one is replaced |
| RewriteSites.RenameExempts | scripts/mechanical_migration.py:449-775 | A changed file is a mechanical rename iff there is such a site, none overlap, and it is the base with all of them replaced and parses; the reason tells overlapping sites from none at all |
| RewriteSites.UnparseableBase | scripts/mechanical_migration.py:449-754 | A changed file is refused for a base that does not parse exactly when the base does not |
| StableSort.SortIsStable | scripts/mechanical_migration.py:462-470 | Sorting orders by the key and keeps ties in their order, every element once |
| Classifier.ClassifySourceChange | scripts/mechanical_migration.py:721-789 | The method with its fold over transformations returns the specified verdict |
| Classifier.FoldStops | scripts/mechanical_migration.py:751-775 | A failing prefix of the transformations fails the whole fold the same way |
| Classifier.FoldIsChain | scripts/mechanical_migration.py:751-763 | The fold succeeds iff the rewrites form a chain of texts from the base, with all their sites, and otherwise fails as the rewrite does at which the chain ends |
| Classifier.UnverifiableIffUndecodable | scripts/mechanical_migration.py:792-818 | UNVERIFIABLE holds iff a side does not decode, and NEW_FILE iff there is no base and the candidate decodes; the reason names the side, the candidate first |
| Classifier.ReasonTells | scripts/mechanical_migration.py:721-789 | The reason and the count of a verdict on different texts tell how the rewrites of the base ended and whether the candidate is their result |
| Classifier.UnchangedIffSameBytes | scripts/mechanical_migration.py:792-818 | UNCHANGED holds iff both sides decode and the bytes are equal |
| Classifier.MechanicalIffRebuilt | scripts/mechanical_migration.py:721-818 | MECHANICAL_ONLY holds iff the candidate bytes are the encoding of the base rewritten at one site or more, and the rewrite parses |
| Classifier.ExemptSourceIff | scripts/mechanical_migration.py:721-789 | On texts, exempt means unchanged, or equal to the base rewritten at one site or more and parseable |
| Classifier.OneExemptCandidate | scripts/mechanical_migration.py:721-818 | For one base and one authority at most one changed candidate is exempt |
| Classifier.ExemptNeedsProof | scripts/mechanical_migration.py:721-818 | An exemption needs a base, decodable bytes on both sides, and authority for any change |
| Classifier.ProvisionallyUnchangedIffSameLines | scripts/quality_gate.py:192-233 | After the provisional normalisation, unchanged means the same lines whatever their terminators |
| Classifier.RenameExemption | scripts/mechanical_migration.py:432-490 | A file exempted as a namespace rename differs from its base only by that name, in at least one place |
| LineEndings.TwoPassesAreOne | scripts/quality_gate.py:192-199 | The two replacements equal one left-to-right pass over CRLF, CR and LF, also on CR CR LF |
| LineEndings.ProvisionalIdempotent | scripts/quality_gate.py:192-199 | No CR is left and a second run changes nothing |
| LineEndings.NormaliseEncoded | scripts/quality_gate.py:192-199 | Normalising the bytes of a text normalises the text |
| LineEndings.ProvisionalDecode | scripts/quality_gate.py:192-199 | Normalised bytes decode iff the original bytes do, and to the normalised text |
| LineEndings.NormaliseKeepsLines | scripts/quality_gate.py:192-199 | The normaliser keeps the line sequence the index sees |
| LineEndings.NormaliseEqualIffSameLines | scripts/quality_gate.py:192-199 | Two texts normalise alike iff they have the same lines |
| QualityGate.ResolveTransformations | scripts/mechanical_migration.py:619-635 | Resolution succeeds iff every identifier is registered, and answers in registry order |
| QualityGate.ActiveTransformations | scripts/quality_gate.py:372-390 | Active are exactly the registered transformations requested by hand or recorded for this merge base, in the order of the registry, and resolution fails iff one of these is unknown |
| QualityGate.ClassifySelection | scripts/quality_gate.py:202-268 | Every selected file gets the verdict of its own comparison, in order; nothing is classified without authority |
| QualityGate.ReportUnverifiable | scripts/quality_gate.py:670-684 | The status counts the files that could not be classified |
| QualityGate.GatePartitions | scripts/quality_gate.py:393-401 | Kept and exempt files are disjoint, cover the selection and keep its order |
| QualityGate.LeavesGateIffExempt | scripts/quality_gate.py:393-401 | A file leaves the gate exactly when its own verdict is an exemption |
| QualityGate.UnverifiableIffNotUtf8 | scripts/quality_gate.py:202-268 | A comparison is made iff its reads succeed, and is unverifiable iff a side that was read is not UTF-8, in a delivery and in the worktree alike |
| QualityGate.UnverifiableFailsClosed | scripts/quality_gate.py:670-684 | A file one side of which is not UTF-8 stays gated and the run fails, whatever Ruff says |
| QualityGate.ExemptIffProven | scripts/quality_gate.py:202-268 | In a delivery and in the worktree alike, a file is exempt iff it existed at the merge base, both revisions decode, and what is seen of them is equal or related by the fold with at least one site |
| QualityGate.RunGate | scripts/quality_gate.py:738-797 | With no active transformation everything is gated and the status is Ruff's; otherwise a failed read gives 2, exactly the unproven files are gated, in order, and the gate passes iff every side of every file is UTF-8 and Ruff passes on those |
| QualityGate.DeliveryExemption | scripts/quality_gate.py:202-268 | In a delivery, on bytes: the stored blob equals its base or is the encoding of the fold's result |
| Polling.PollingLoop.SchedulePoll | EXTENSION/webview/interface.js:467-473 | Arms one timer for its generation iff that generation is current |
| Polling.PollingLoop.StartPolling | EXTENSION/webview/interface.js:475-480 | Opens the next generation, marks the time and polls for it |
| Polling.PollingLoop.PollWatchdog | EXTENSION/webview/interface.js:484-491 | Restarts exactly when armed, silent for 20 seconds, and the log call returns |
| Polling.PollingLoop.PollCommands | EXTENSION/webview/interface.js:493-521 | Leaves one successor for a current generation on every path: retry, request, or retry after a throw |
| Polling.PollingLoop.OnTimer | EXTENSION/webview/interface.js:467-473 | A fired timer of an older generation does nothing but disappear |
| Polling.PollingLoop.OnLoad | EXTENSION/webview/interface.js:505-515 | A response marks the time, runs its batch and reschedules with the delay of its outcome |
| Polling.PollingLoop.OnErrorOrTimeout | EXTENSION/webview/interface.js:516 | An error or timeout reschedules after half a second |
| Polling.ReachableHasAtMostOneLive | EXTENSION/webview/interface.js:459-521 | In every reachable state at most one timer or request carries the current generation and none a later one |
| Polling.RunKeepsConsistent | EXTENSION/webview/interface.js:459-521 | Over every interleaving of callbacks, throws, losses and restarts the invariant holds and generations only grow |
| Polling.LiveCallbackRechains | EXTENSION/webview/interface.js:467-521 | The callback of the live activity replaces it by exactly one successor |
| Polling.SuccessorIs | EXTENSION/webview/interface.js:467-521 | What takes the place of the live callback, with its delay, after a timer, each response, and an error |
| Polling.WatchdogRestartsIff | EXTENSION/webview/interface.js:484-491 | The watchdog opens a new generation iff armed, silent for 20 s, and the log returns, and otherwise changes nothing |
| Polling.StaleCallbackSpawnsNothing | EXTENSION/webview/interface.js:467-521 | The callback of an older generation spawns nothing |
| Polling.StaleLoadPostpones | EXTENSION/webview/interface.js:505-515 | While the live chain is lost, a late response of an older one is executed and puts the restart off by 20 s over every run without a new start |
| Polling.StepGeneration | EXTENSION/webview/interface.js:475-491 | A step keeps the generation, or makes the next one with one live chain |
| Polling.ChainSurvives | EXTENSION/webview/interface.js:459-521 | Once started there is exactly one live activity as long as no request loses its callbacks |
| Polling.DeadUntilRestart | EXTENSION/webview/interface.js:459-491 | A dead chain stays dead until a restart |
| Polling.CommandsCounted | EXTENSION/webview/interface.js:526-541 | Over every run the counter grows by exactly the commands of the batches that ran |
| PollingTiming.MarksAreClose | EXTENSION/webview/interface.js:459-521 | With timers late by at most d and requests settled in 8 s, successive marks of a healthy chain are at most 8.5 s + d apart |
| PollingTiming.HealthyNeverTrips | EXTENSION/webview/interface.js:484-491 | Below 11.5 s of lateness a healthy chain never trips the watchdog |
| PollingTiming.HealthyCanTrip | EXTENSION/webview/interface.js:484-491 | From 11.5 s on there is a timely healthy run that trips it |
| PollingTiming.SilenceIsBounded | EXTENSION/webview/interface.js:484-491 | While log returns, the time since the last mark stays below 25 s + d |
| PollingTiming.DeadChainReplaced | EXTENSION/webview/interface.js:484-491 | At any point of any timely run of the page, a chain with no surviving activity is replaced by exactly one new chain less than 25 s + d after its last mark, if log returns |
| PollingTiming.DeadChainCanWait | EXTENSION/webview/interface.js:484-491 | For every d a timely run in which a dead chain is still not replaced one millisecond short of 25 s + d |
| PollingTiming.LostChainReplaced | EXTENSION/webview/interface.js:484-491 | A chain that lost its live activity, whatever older chains have in flight, is replaced by exactly one new chain in less than 33 s + d |
| PollingTiming.LostChainCanWait | EXTENSION/webview/interface.js:484-515 | For every d a timely run in which a lost chain is still not replaced one millisecond short of 33 s + d |
| PollingTiming.OwnRestartsLeaveNothing | EXTENSION/webview/interface.js:475-515 | While only the watchdog restarts the loop, no request of an older chain is ever in flight, so a lost chain is a dead one |
| PollingTiming.NoLogNoRecovery | EXTENSION/webview/interface.js:488-490 | If log never returns, a dead chain is never replaced by the watchdog |
| QuickBuild.AddDevices | EXTENSION/webview/interface.js:922-980 | The loops push exactly the routers, switches, PCs, servers and cloud of the form values |
| QuickBuild.AddRouterCables | EXTENSION/webview/interface.js:982-1009 | The router-to-router cables of each template |
| QuickBuild.AddCables | EXTENSION/webview/interface.js:982-1067 | All cables, with the ports they use |
| QuickBuild.BuildWanLinks | EXTENSION/webview/interface.js:1072-1098 | The addressed links of each template |
| QuickBuild.CablesMatchLinks | EXTENSION/webview/interface.js:982-1098 | Cables and addressed links are built separately and agree one by one, with distinct link indices |
| QuickBuild.NoPortUsedTwice | EXTENSION/webview/interface.js:982-1067 | No (device, port) pair is used by two cables, for every template and every count |
| QuickBuild.LanPortFree | EXTENSION/webview/interface.js:1011-1067 | A router's LAN and cloud ports are none of its WAN ports, and the LAN port exists iff there is a router |
| QuickBuild.CablesJoinAddedDevices | EXTENSION/webview/interface.js:951-1067 | Every cable joins two added devices exactly when there is a router position or nothing that needs one |
| QuickBuildCabling.DevicesExact | EXTENSION/webview/interface.js:923-981 | Exactly the devices the form asks for are added, each once |
| QuickBuildCabling.CablesExact | EXTENSION/webview/interface.js:983-1068 | Routers that are neighbours in the template, each router and the first switch of its LAN, that switch and its PCs, the first one and the servers, and the first router and the cloud are joined by one cable each, and nothing else is |
| QuickBuildCabling.RouterPortsDense | EXTENSION/webview/interface.js:983-1068 | With LANs a router uses its ports from 0 on without a gap |
| QuickBuildCabling.SwitchPortsDense | EXTENSION/webview/interface.js:1041-1060 | The ports of a first switch are used from 1 on without a gap, one per PC and server |
| QuickBuildCabling.BuildScript | EXTENSION/webview/interface.js:908-1264 | Devices, cables, interfaces and hosts together: every router reaches its first switch on the very port that holds the LAN gateway, and every static host is cabled to the switch of the /24 its gateway is in |
| QuickBuildRouting.ConfigureInterfaces | EXTENSION/webview/interface.js:1113-1151 | The interface addresses of a router: both ends of its links and its LAN gateway |
| QuickBuildRouting.ConfigureHosts | EXTENSION/webview/interface.js:1237-1264 | The addresses of all PCs and servers, or DHCP |
| QuickBuildRouting.LinkEndsAddressed | EXTENSION/webview/interface.js:1072-1150 | Each link's ends get .1 and .2 of one /30 on the ports of its cable, and no other interface is in that /30 |
| QuickBuildRouting.PortsConfiguredOnce | EXTENSION/webview/interface.js:1113-1151 | No port of a router is configured with two addresses |
| QuickBuildRouting.AddressesUnique | EXTENSION/webview/interface.js:1113-1264 | PC, server, LAN and WAN addresses are pairwise distinct |
| QuickBuildRouting.AddressesInRange | EXTENSION/webview/interface.js:1113-1264 | All addresses are usable host addresses iff there are at most 256 routers, or 257 without LANs, and statically addressed hosts number at most 253 on each LAN, with the servers on the first |
| QuickBuildRouting.FindNextHop | EXTENSION/webview/interface.js:1270-1336 | The searches return the first matching link's far address, or nothing |
| QuickBuildRouting.HopIsFirst | EXTENSION/webview/interface.js:1270-1336 | For any links, a next hop is the far address of the first link that leads there: the spoke's, a direct one of the triangle or else any of the router's, the one on that side of a chain; there is none iff no link does |
| QuickBuildRouting.EmitStaticRoutes | EXTENSION/webview/interface.js:1164-1175 | The `ip route` lines of a router, one per other LAN that has a next hop |
| QuickBuildRouting.HopIsAttachedPeer | EXTENSION/webview/interface.js:1270-1336 | Every router has a next hop to every other LAN: the other end of a link it is attached to |
| QuickBuildRouting.RouteOwner | EXTENSION/webview/interface.js:1164-1175 | That route is unique, and its next hop is held by that neighbour and by nothing else |
| QuickBuildRouting.ForwardsOnlyToNext | EXTENSION/webview/interface.js:1164-1175 | Routes and addresses together forward to exactly one router |
| QuickBuildRouting.RoutesDeliver | EXTENSION/webview/interface.js:1270-1336 | Following next hops reaches the destination's router without revisiting one, in at most two hops through a hub, one in the triangle, and exactly the index distance on a chain |
| Mailbox.RunFileBridgeCommand | EXTENSION/script-engine/main.js:133-142 | The last reported value, or the error text of what was thrown; nothing when that has no text |
| Mailbox.FileBridge.VisitFile | EXTENSION/script-engine/main.js:165-190 | One file is purged, executed or skipped as specified |
| Mailbox.FileBridge.FileBridgeTick | EXTENSION/script-engine/main.js:144-195 | One tick over any listing and any pattern of failing operations |
| Mailbox.FileBridge.StartFileBridge | EXTENSION/script-engine/main.js:197-201 | Ticks only when no timer is held |
| Mailbox.FileBridge.CleanUp | EXTENSION/script-engine/main.js:364-367 | Cancels the held timer and releases it |
| Mailbox.ResponsesAreDistinct | EXTENSION/script-engine/main.js:179-186 | Different requests have different response files, and no response is taken for a request |
| Mailbox.TickArmsOne | EXTENSION/script-engine/main.js:144-195 | A tick arms exactly one successor on every path, after 250 ms if it executed a file and 1500 ms otherwise, unless an exception leaves it, and then none |
| Mailbox.RunKeepsTidy | EXTENSION/script-engine/main.js:144-201 | In every run, however often started, at most one tick is pending and it is the one held |
| Mailbox.LoopSurvives | EXTENSION/script-engine/main.js:144-201 | Until a clean-up or such an exception the next tick is always armed |
| Mailbox.EscapesIff | EXTENSION/script-engine/main.js:133-142 | An exception leaves the loop exactly when an executed command throws a value without a string form |
| Mailbox.UnprintableStopsTheLoop | EXTENSION/script-engine/main.js:133-142 | A run in which that happens in a fired tick, and ends with nothing pending and the spent timer held |
| Mailbox.DeadUntilCleanUp | EXTENSION/script-engine/main.js:194-201 | In such a state nothing runs until a clean-up, however often the bridge is started |
| Mailbox.CounterFromStart | EXTENSION/script-engine/main.js:185-189 | Over every run from the start of the script the counter is the number of executions not cut short |
| Mailbox.CleanUpStops | EXTENSION/script-engine/main.js:364-367 | After a clean-up nothing is pending and no timer is held |
| Mailbox.ExecutionsAreEarned | EXTENSION/script-engine/main.js:165-190 | A request is executed at most once per time it was put there, plus once per execution whose deletion failed |
| Mailbox.DeletedIsNotExecuted | EXTENSION/script-engine/main.js:185-189 | A request that is gone is not executed again unless written again |
| Mailbox.FreshRequestIsServed | EXTENSION/script-engine/main.js:165-190 | A readable request at most 60 s old, of unknown age, or that cannot be purged, is executed in that tick with the content it has then |
| Mailbox.StaleRequestIsPurged | EXTENSION/script-engine/main.js:171-178 | An old file whose age and deletion work is deleted and not executed |
| Mailbox.ExecutedIff | EXTENSION/script-engine/main.js:165-182 | A file is executed at its turn iff it has the name of a request, is at most 60 s old, of unknown age or not purged, can be read, and is there |
| Mailbox.TurnLeaves | EXTENSION/script-engine/main.js:165-190 | What the turn of a file leaves in the directory, whatever fails: an old mailbox file is gone, an executed request has its response and is gone, and everything else stays |
| Mailbox.ExecutedIsAnswered | EXTENSION/script-engine/main.js:184-188 | `req_<name>.js` is answered in `res_<name>.txt` by what it reported last, or the error it threw, and is gone |
| Finalization.FinalizeSession | src/packet_tracer_mcp/application/cp_scale_live/lifecycle.py:26-94 | Operation by operation, over what each does: called at most once and in order, the evidence iff it was prepared, the report iff there are errors and it is not deferred or an interruption is in flight; what leaves is the first failure that interrupts, and every other failure is recorded exactly once, in place |
| Finalization.ReportTerminalErrors | src/packet_tracer_mcp/application/cp_scale_live/lifecycle.py:17-23 | A failed report is added to the errors and replaces none; only what is outside `Exception` leaves, with the errors as they were |
| Finalization.ClosedExactlyOnce | src/packet_tracer_mcp/application/cp_scale_live/lifecycle.py:43-70 | Close is called exactly once on every path, after the evidence and before the report |
| Finalization.EarliestIsFirst | src/packet_tracer_mcp/application/cp_scale_live/lifecycle.py:42-94 | The interruption raised is the first in time order |
| Finalization.NoFailureIsLost | src/packet_tracer_mcp/application/cp_scale_live/lifecycle.py:41-94 | Every failure is recorded as often as it was raised, except the one re-raised, and gathered texts come first |
| DhcpReassertion.EligibleActionIds | src/packet_tracer_mcp/application/cp_scale_live/endpoint_dhcp_reassertion.py:28-158 | The loops select exactly the eligible actions |
| DhcpReassertion.EligibleIsFailedDelta | src/packet_tracer_mcp/application/cp_scale_live/endpoint_dhcp_reassertion.py:28-158 | Eligible are only DHCP endpoint actions the first attempt mutated and that were freshly observed unaddressed, without duplicates and in plan order; and all of them are, when the attempt with these marked would be accepted |
| DhcpEvidence.EligibleExactly | src/packet_tracer_mcp/application/cp_scale_live/endpoint_dhcp_reassertion.py:28-158 | An action is eligible iff ids are unique, some verification of it shows the one failure that may be repaired, told from the entries themselves, and the attempt would be accepted with all such failures repaired |
| DhcpReassertion.RereadKeepsThePlan | src/packet_tracer_mcp/application/use_cases/qualify_cp_scale_live.py:93-151 | A reread retains one satisfied result per plan action, in plan order |
| DhcpEvidence.RereadKeeps | src/packet_tracer_mcp/application/use_cases/qualify_cp_scale_live.py:93-151 | For each plan action a reread keeps the prepared result where the voice signal is intended and there is one, and the attempt's own otherwise |
| DhcpEvidence.RereadBounded | src/packet_tracer_mcp/application/use_cases/qualify_cp_scale_live.py:93-151 | It is bounded iff the preparation covers what was deferred, plan and results name the same actions once each, and every kept result satisfies its dependents |
| DhcpEvidence.ReassertionBounded | src/packet_tracer_mcp/application/cp_scale_live/endpoint_dhcp_reassertion.py:161-209 | A reassertion is in bounds iff something is eligible and the attempt, with deferred voice intended, could be kept; it mutates what is eligible and keeps the rest |
| DhcpReassertion.ScopePartitionsThePlan | src/packet_tracer_mcp/application/cp_scale_live/endpoint_dhcp_reassertion.py:176-209 | A reassertion splits the plan: each action is reasserted or retained, never both |
| DhcpReassertion.DeferredVoiceIsNeverLost | src/packet_tracer_mcp/application/cp_scale_live/endpoint_dhcp_reassertion.py:194-199 | The refusal for lost deferred voice state cannot happen |
| ConfigurationStage.Execution.Apply | src/packet_tracer_mcp/application/cp_scale_live/configuration_stage.py:83-106 | One application is made, and stops the stage if it fails or contradicts the plan |
| ConfigurationStage.Execution.Execute | src/packet_tracer_mcp/application/cp_scale_live/configuration_stage.py:66-193 | The applications made, what the report says of the second, when the stage is accepted, and that contradictions, serial state and acceptance error are what the calls answered |
| ConfigurationStage.RequestsTold | src/packet_tracer_mcp/application/cp_scale_live/configuration_stage.py:108-183 | Over the answers of the calls: which first application is asked for, and exactly when a second one is and with what |
| ConfigurationStage.ReportTold | src/packet_tracer_mcp/application/cp_scale_live/configuration_stage.py:125-183 | The applications that are kept, and what is reported of a second one or of a refused scope |
| ConfigurationStage.AcceptanceTold | src/packet_tracer_mcp/application/cp_scale_live/configuration_stage.py:108-193 | Over the answers of the calls: the first application stands at once, or the second one that was asked for does, or a scope was refused without a text |
| ConfigurationStage.NothingApplied | src/packet_tracer_mcp/application/cp_scale_live/configuration_stage.py:83-106 | Where the first application raised, nothing more is applied, kept or accepted |
| ConfigurationStage.AtMostTwoApplications | src/packet_tracer_mcp/application/cp_scale_live/configuration_stage.py:108-183 | At most two applications; the second is a reassertion or a reread, never both |
| ConfigurationStage.SecondIsBounded | src/packet_tracer_mcp/application/cp_scale_live/configuration_stage.py:125-178 | A second application mutates nothing, or a nonempty plan-ordered part of the first one's mutations; with what it retains it covers the plan exactly once |
| ConfigurationStage.GovernedNeverStopsSilently | src/packet_tracer_mcp/application/cp_scale_live/configuration_stage.py:188-193 | With the repository's scopes, no error recorded means the stage completed |
| ConfigurationStage.SilentStopIsAccepted | src/packet_tracer_mcp/application/cp_scale_live/configuration_stage.py:131-133 | The stage of a policy that refuses with an empty text is executed, contradicted, stopped without completing, and accepted |
| GovernedRun.Run.RecordRaw | tools/poe3a_pse_live.py:566-582 | A raw file is never replaced by different bytes; the same bytes may be recorded again |
| GovernedRun.Run.MeasureOne | tools/poe3a_pse_live.py:823-845 | One causal step: apply the mode, capture, record, check, in that order; it goes on exactly when the capture is on record, complete and as planned |
| GovernedRun.Run.PrepareFactoryModule | tools/poe3a_pse_live.py:714-816 | The module is asked for at most once, and the fallback at most once and only when the installation was dispatched and natively refused |
| GovernedRun.Run.RestoreAuto | tools/poe3a_pse_live.py:849-862 | AUTO is applied first, then read back; a failure becomes a problem |
| GovernedRun.Run.CleanupFixture | src/packet_tracer_mcp/infrastructure/execution/poe3b_session.py:447-463 | Every attempted device is asked to be deleted, last first, and without problems all were deleted |
| GovernedRun.Run.Execute | tools/poe3a_pse_live.py:646-947 | The body follows its plan up to the first check that fails; after any failure AUTO is restored first and read back; over the whole trace the devices creation was asked for are the attempted ones, and deletions are a prefix of them in reverse, all of them iff no interruption of the restoration came before the last was asked for; the bridge is stopped once iff no interruption of the restoration came before, and otherwise never; a snapshot needs the whole plan, every check passed, no problem, every deletion confirmed and the workspace as before; where every operation works there is one; the raw files are the first readings of all captures |
| GovernedRun.UndisturbedRun | tools/poe3a_pse_live.py:646-947 | In a session where every operation works, an executed run of any fixture with distinct names ends with its snapshot, every device it created deleted in reverse, and the bridge stopped once |
| GovernedRun.InterruptedReadback | tools/poe3a_pse_live.py:849-903 | An executed run, interrupted while the restored power is read back, has asked for every device, deletes none, and never stops the bridge |
| GovernedRun.FirstReadingStays | tools/poe3a_pse_live.py:566-582 | Every capture of a trace is on record at its end, unless an earlier capture had its file name |
| GovernedRun.RefusalComesFrom | tools/poe3a_pse_live.py:743-787 | A refusal in the notes of a trace is the answer of the module's own installation |
| GovernedRun.GateMeansPermutation | tools/poe3a_pse_live.py:475-487 | The gate's counting makes the deletions a duplicate-free permutation of the attempts, which equal the creations |
| GovernedGuards.CreationIsGuarded | tools/poe3a_pse_live.py:683-713 | Before any device is asked for the bridge was alive, its mailbox empty, the workspace empty and the source frozen |
| GovernedGuards.EndpointsAreLinked | tools/poe3a_pse_live.py:714-822 | Each endpoint that was created is linked next |
| GovernedGuards.MeasurementIsGuarded | tools/poe3a_pse_live.py:823-838 | The mode is changed only right after the source was found frozen, and the capture that follows is of that step |
| GovernedGuards.MeasurementCounts | tools/poe3a_pse_live.py:829-838 | A measurement after which the body goes on is complete, agrees with its step, and is on record |
| GovernedGuards.FallbackIsEarned | tools/poe3a_pse_live.py:722-787 | The fallback follows a dispatched and natively refused installation, with a determined target and usable power before and after it |
| GovernedGuards.ModuleIsVerified | tools/poe3a_pse_live.py:788-817 | Behind an installed module endpoints are created only after it was verified and its power read |
| GovernedGuards.SnapshotMeasured | tools/poe3a_pse_live.py:823-947 | A snapshot rests on a measurement of each step that counts, in its own mode and under a frozen source |
| GovernedGuards.SnapshotRestored | tools/poe3a_pse_live.py:849-947 | It rests on AUTO being restored and shown by every row, and on the fingerprint and the device names being those of the start |
| GovernedGuards.SnapshotCleaned | tools/poe3a_pse_live.py:849-947 | It rests on every device having been created and its deletion confirmed |
| GovernedGuards.BodyGoesOn | tools/poe3a_pse_live.py:683-838 | The body stops nowhere without a reason: it gets to its last measurement, or its last answer failed a check of that operation |
| GovernedGuards.RestorationGoesOn | tools/poe3a_pse_live.py:849-903 | An uninterrupted restoration applies AUTO, reads the power back iff that was answered, asks for every deletion and then for the residue, whatever failed before, and goes on with the final readings as long as they are answered |
| JsEscape.ReplacementsAreOnePass | src/packet_tracer_mcp/shared/utils.py:105-124 | The seven whole-string replacements equal one per-character pass |
| JsEscape.NoRawLineTerminator | src/packet_tracer_mcp/shared/utils.py:105-124 | The result holds no raw LF, CR, U+2028 or U+2029 |
| JsEscape.LiteralReadsBack | src/packet_tracer_mcp/shared/utils.py:105-124 | Read as a string literal of either quote style (ECMA-262 2022, section 12.9.4) it ends where it should and has the original value |
| Naming.ResultIsComponent | src/packet_tracer_mcp/shared/utils.py:89-102 | Any input gives the fallback or an allowed, unreserved component of at most 100 characters |
| Naming.ResultIs | src/packet_tracer_mcp/shared/utils.py:89-102 | The result over the characters of the name: outer blanks off, other characters than letters, digits, dots, underscores and hyphens replaced, an underscore before a device name in any case, and a hundred characters of that, or the fallback if only punctuation is left |
| Naming.DeviceIff | src/packet_tracer_mcp/shared/utils.py:18-101 | A name is reserved exactly when, in any case, it spells a device name up to its end or its first dot |
| Naming.UnchangedIff | src/packet_tracer_mcp/shared/utils.py:89-102 | Exactly the nonblank safe components are left as they are |
| Naming.IdempotentIff | src/packet_tracer_mcp/shared/utils.py:89-102 | Cleaning twice equals cleaning once iff the cut leaves more than punctuation |
| Naming.NotIdempotent | src/packet_tracer_mcp/shared/utils.py:89-102 | A name for which it does not |
| Naming.BudgetIsExact | tools/poe3a_pse_live.py:82-84 | A run identity fits one component iff its qualification id has at most 68 characters |
| Naming.ValidIdHasRunId | tools/poe3a_pse_live.py:243-256 | Every valid id gets its run identity in full, and the second refusal never happens |
| Naming.RunIdDetermines | tools/poe3a_pse_live.py:249-256 | A run identity determines its id, time stamp and token |
| VoiceLedger.KeyInjective | tools/cp_scale_voice_ab_ledger.py:69-76 | Different run names never have the same sort key |
| VoiceLedger.EntryOrder | tools/cp_scale_voice_ab_ledger.py:73-76 | The keys order entries totally, and ties are the same run |
| VoiceLedger.Ledger.Record | tools/cp_scale_voice_ab_ledger.py:112-159 | It is refused for the first gate that fails and the ledger stays as it was, with the head gate told over the characters; otherwise the entry holds what was submitted and the digests there are, and the list is filtered, extended and sorted |
| VoiceLedger.RecordedMembers | tools/cp_scale_voice_ab_ledger.py:151-157 | A recording keeps the list strictly sorted and replaces exactly its run's entry |
| VoiceLedger.RunsInOrder | tools/cp_scale_voice_ab_ledger.py:69-158 | After any recordings, with the names compared as texts: numbered runs first, shorter numbers before longer ones, and otherwise as in a dictionary |
| VoiceLedger.NumeralOrder | tools/cp_scale_voice_ab_ledger.py:73-76 | A smaller number is shorter or comes first in a dictionary |
| VoiceLedger.LedgerRefinesMap | tools/cp_scale_voice_ab_ledger.py:151-158 | After any recordings from an empty ledger the runs are unique and strictly sorted, and the list is the last-write-wins map |
| VoiceLedger.LedgerIsCanonical | tools/cp_scale_voice_ab_ledger.py:151-158 | The list depends on nothing but that map |
| VoiceLedger.RecordingsCommute | tools/cp_scale_voice_ab_ledger.py:151-158 | Different runs commute, and recording a run again forgets the first |
| VoiceLedger.LedgerHeads | tools/cp_scale_voice_ab_ledger.py:69-158 | After any accepted recordings, with files that may change between them, each run has its last recording, and a full commit id iff that head did not end in a newline |
| VoiceLedger.NewlineHeadIsRecorded | tools/cp_scale_voice_ab_ledger.py:125-126 | A head of forty digits and a newline passes every gate, and the recording becomes the entry of a new ledger |

## Left out

- HTTP, sockets, subprocesses, Git, PowerShell and file calls: they appear as values or failures.
- `ast.parse`, the order in which scopes are walked, and SHA-256: nodes with positions and the fingerprint are inputs of the rewrite.
- `_validate_audited_site`, `parse_authorization` and the reading of authorization records: shape checks on JSON, one branch each.
- Texts with lone surrogates in the rewrite classifier: a strict decoder never produces one.
- `main` and `_print_selection` of the gate, and how Git names the changed files.
- The webview's status panels, log rendering and token reloading; whether logging returns is an input of the watchdog.
- Polling assumes that a sent request calls back at most once and that a throwing `send` never does.
- Device names, canvas coordinates, models and port names of Quick Build: routers are indices and ports are records; whether a model has enough ports is not checked.
- OSPF, EIGRP, RIP, DHCP pool and switch text of Quick Build: they are literal lines per device.
- QuickBuildRouting.FindNextHop: leaves out the second search of a chain, which repeats the condition of the first and is never reached.
- Quick Build's loops over devices and cables are split into one method per section; the script has them in one function.
- The mailbox takes an unreadable listing as empty, as the code does, and a listing is a list of names; one that is no list is not part of the model.
- The mailbox assumes that reading a file that is not there throws, and that a deletion that returns has deleted.
- An executed command of the mailbox changes the directory and nothing else here; its JavaScript runs in the same globals and could call `startFileBridge` or `cleanUp` in the middle of a tick.
- Time inside a mailbox tick: the clock is read once, as in the code, and ages are compared to it.
- Failing string conversions of exceptions in `finalize_session` and in the stage: an exception's text is an input.
- `canonical_stage_configuration_error`, the retry policy and the applicator of a configuration stage: any functions of their arguments.
- ConfigurationStage: what is not an `Exception` leaves the stage from wherever it is raised and is not modelled; failures are those its handler catches.
- The texts of the reread scope's refusals: the kinds of problems are modelled.
- Entry checks, environment details, the power hypothesis and the gates of the snapshot behind the first one in a governed run: each is one yes or no of the session.
- GovernedRun.Run.Execute: printing, evidence serialisation and time stamps are not modelled.
- VoiceLedger.Decimal: converts numerals of any length; CPython 3.11 and later refuses more than 4300 digits, so that recording a run with such a name raises there.
- `verify` and `archive` of the ledger, and entries of a ledger file written by something else.
- Legacy octal escapes in the literal reader of `JsEscape`: they are refused, as in strict code.
- `CPScaleLocalPreflight.inspect` and `_repository_issues`: ordered guards with one claim per branch.
- `tool_registry.py`, the other live runners, catalogues, mask tables and the context rules of `namespace_inventory.py`.
