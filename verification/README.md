# Verification of Open Review Atlas cores

Dafny models of the parts of Open Review Atlas whose correctness is hardest to see from the
code, with proofs of what they promise. `dafny verify dfyconfig.toml` checks everything.

**Effect ordering** (`permits`, `owner_*`, `synthetic_owner`). The harness of the local synthetic
alpha serialises reads, provider jobs and revocations of two domains. `OwnerModel` is a step
relation: one step is the code between two suspensions, and the environment chooses which
operation moves, when barriers open, when `finish`, `error` and `close` arrive, and when clients
cancel or the owner is stopped. `OwnerInvariant` is kept by every step, and `OwnerTheorems` draws
the guarantees for every run; `OwnerOutcomes` and `OwnerBarriers` say what becomes of each
operation, record by record; `OwnerLiveness` shows that nothing waits for ever. `SyntheticOwners`
has the same code on mutable objects; each method is proved to change the state as the relation
says, so the theorems hold of the objects.

**Canonical JSON** (`json_*`, `decimals`, `canonical_*`, `normalizer`). Values live in a heap, so
they may be shared or cyclic. `Denotes` says what data a value stands for without following the
algorithm; normalising is proved to compute exactly that or to name a fault that is really there,
and the text is proved to determine the data and to read back as it under a reader of RFC 8259.

**Identity** (`union_find`, `work_*`, `evidence_ids`). Union-find with path halving and without
rank, the clusters it computes, the exactness and order-independence of the conflict report, and
the UTF-16 hex codec behind durable ids.

**Bounded scanners and validators.** The budgeted evidence traversal (`native_evidence`), the
resumable backfill (`backfill`), Atlas Check with its capped sink, graph check, JSONL reader and
GitHub report (`findings`, `evidence_graph`, `graph_exact`, `atlas_check`, `jsonl`,
`atlas_artifacts`, `annotations`, `github_report`), the RFC 6901 pointer (`json_pointer`) and the
graph-curation validator (`graph_curation`).

JavaScript strings are sequences of UTF-16 code units. Where the model needs a call it does not
define (JSON.parse with a schema, base64, capability patterns, materialising one review version,
the wording of messages), the call is a parameter and the theorems hold for every choice of it.

Five properties that the code's comments or names suggest turned out not to hold on all inputs.
The code is modelled as it is; each has a concrete input and the exact condition:

- A `__proto__` member sets a prototype instead of adding a member, so equal canonical text does
  not always mean equal value (`CanonicalTheorems.ProtoMemberCollides`; exact condition in
  `TextDecidesExactlyWithoutProto`).
- For the same reason the normal form may not be accepted again (`ProtoContainerIsRefusedAgain`;
  exact condition on the input in `NormalizingTwice`).
- Ids may contain the arrow that joins pair keys, so a TRUST assessment without a relation can
  pass (`EvidenceGraph.ArrowsHideAMissingRelation`; exact condition on the ids in
  `CheckIsExactOverIds`, what suffices for one repository in `ApartKeysAreExact`).
- `key in current` also finds inherited names and the `length` of arrays, so a pointer can resolve
  where RFC 6901 has nothing (`JsonPointer.LengthIsNotAMember`; exact condition on value and tokens
  in `WalkIsEvaluationExactly`).
- A successful backfill that found no id after `--after` reports no cursor, so a run continued from
  its nextAfter starts over (`Backfill.StartPastTheEndStartsOver`; exact condition in
  `SuccessfulRunContinuesExactly`).

## Model

| member | source | states |
|---|---|---|
| `OwnerTheorems.QueuedRevocationBlocksLaterEffects` | scripts/local-synthetic-alpha/harness.ts:410-436 | In every run, once a revocation is queued in a domain, no read or provider operation queued later there is ever admitted or has a release or start permit accepted |
| `OwnerTheorems.EffectsPrecedeCommit` | scripts/local-synthetic-alpha/harness.ts:492-503 | In every run, every accepted release or start permit of a domain precedes its first commit and carries generation 1 |
| `OwnerTheorems.GenerationCountsCommits` | scripts/local-synthetic-alpha/harness.ts:492-503 | In every run, generation = 1 + number of commits, `revoked` holds exactly after a commit, and every recorded job has generation 1 |
| `OwnerTheorems.FifoExclusion` | scripts/local-synthetic-alpha/harness.ts:410-453 | In every run, queued order = held order followed by the queue; each operation is queued and held at most once; all past holders settled; a running owner leaves no gate free while somebody waits |
| `OwnerTheorems.GateLeavesDefinitively` | scripts/local-synthetic-alpha/harness.ts:444-453 | In every run, a gate leaves its holder only after a commit, a recorded job, a denial without hand-off, or a hand-off whose finish was observed |
| `OwnerTheorems.AtMostOneEffect` | scripts/local-synthetic-alpha/harness.ts:802-829 | In every run, at most one permit is ever accepted for an operation, and a release or start permit exactly when it is decided as admitted |
| `OwnerTheorems.NoPermitRefused` | scripts/local-synthetic-alpha/harness.ts:802-829 | In every run no permit is refused and the owner is never poisoned as permit-rejected |
| `OwnerTheorems.EveryMintedPermitIsAcceptedAtOnce` | scripts/local-synthetic-alpha/harness.ts:795-800 | Every minted permit is accepted by the very next event of the trace |
| `OwnerTheorems.DecisionWrittenOnce` | scripts/local-synthetic-alpha/harness.ts:859-869 | A decision and its reason, once written, stay the same in every continuation of the run, and a settled operation stays settled |
| `OwnerTheorems.CancelTakesHold` | scripts/local-synthetic-alpha/harness.ts:390-400 | In every run, cancelling takes hold of exactly the undecided reads and provider operations, queued, held or not yet received, and then notes the request and changes nothing else |
| `OwnerTheorems.CancelPreventsAdmission` | scripts/local-synthetic-alpha/harness.ts:390-400 | A read or provider operation cancelled before it was decided is not admitted in any continuation of the run |
| `OwnerTheorems.FailClosed` | scripts/local-synthetic-alpha/harness.ts:837-857 | Once the owner has left running it only moves poisoned to stopped; no generation, queue, holder, job or accepted permit changes any more and every operation is settled |
| `OwnerTheorems.NoOperationLost` | scripts/local-synthetic-alpha/harness.ts:425-453 | In every run each unsettled operation is in exactly one of: pending tokens, its own queue, its own gate; and the owner is running |
| `OwnerTheorems.DomainsAreIndependent` | scripts/local-synthetic-alpha/harness.ts:410-453 | A step of an operation of one domain changes neither gate nor queue of the other domain |
| `OwnerSteps.NextKeeps` | scripts/local-synthetic-alpha/harness.ts:410-889 | Every atomic step keeps the invariant over phases, gates, queues, permits and the trace |
| `OwnerSteps.RunKeeps` | scripts/local-synthetic-alpha/harness.ts:410-889 | Every run from a state that meets the invariant ends in one that meets it |
| `OwnerProgress.RunGrows` | scripts/local-synthetic-alpha/harness.ts:410-889 | Along every run the trace only grows and each operation only moves forward |
| `OwnerOutcomes.OthersChangeExactly` | scripts/local-synthetic-alpha/harness.ts:425-462 | In every run, a step about something else changes an operation in two ways only: next in line it takes its gate and is committed, refused for the first reason that applies, or asks its store; when the owner ends it is invalidated unless it was decided or settled before |
| `OwnerOutcomes.BoundaryDecidesExactly` | scripts/local-synthetic-alpha/harness.ts:506-526 | In every run, an operation at its effect boundary is denied for the first of withdrawal, lost transport, revocation, store denial and store error that applies, and is admitted exactly when none does; its whole record follows |
| `OwnerOutcomes.CallsStartOrWait` | scripts/local-synthetic-alpha/harness.ts:366-388 | In every run, a provider or revocation call starts at once on a free gate, and otherwise is last in line with the generation of that moment |
| `OwnerOutcomes.ReadsStartOrWait` | scripts/local-synthetic-alpha/harness.ts:679-692 | In every run, a read that reaches the server starts at once on a free gate, and otherwise is last in line with the generation of that moment |
| `OwnerOutcomes.FinishSettles` | scripts/local-synthetic-alpha/harness.ts:615-677 | In every run, a response that finishes first settles its operation, frees the gate and leaves the owner running |
| `OwnerOutcomes.FailurePoisons` | scripts/local-synthetic-alpha/harness.ts:615-677 | In every run, a response that fails first poisons the owner, never frees the gate, and leaves the decision as it was |
| `OwnerOutcomes.ClosePoisons` | scripts/local-synthetic-alpha/harness.ts:712-722 | In every run, a connection that closes under a held gate before its response finished poisons the owner at once |
| `OwnerOutcomes.FirstReportStands` | scripts/local-synthetic-alpha/harness.ts:636-677 | In every run, the first transport report of a response decides the boundary result; no later report changes it |
| `OwnerOutcomes.LostBeforeQueueing` | scripts/local-synthetic-alpha/harness.ts:780-789 | In every run, a read whose client goes away before the server saw it is invalidated as lost and leaves the pending requests |
| `OwnerOutcomes.CompletionIsRecorded` | scripts/local-synthetic-alpha/harness.ts:547-560 | In every run, a job whose completion barrier opens records how it ended, or that a stopped owner ignored it, unless it was settled before |
| `OwnerBarriers.BarriersHold` | scripts/local-synthetic-alpha/harness.ts:471-526 | In every run, a gated operation is admitted only after its own store and pre-boundary barriers were opened, and a gated job completes only after its completion barrier was |
| `OwnerLiveness.EverythingCanSettle` | scripts/local-synthetic-alpha/harness.ts:410-889 | From every reachable state some continuation made only of arriving requests, opening barriers, resumptions and finishing responses settles every operation; a running owner is still running after it unless a transport failed |
| `OwnerLiveness.DrainDomain` | scripts/local-synthetic-alpha/harness.ts:425-453 | The gate of a running domain can be emptied by such steps without touching pending requests or the other domain, unless a transport fails |
| `Permits.AcceptedExactlyOnFirstMatchingPresentation` | scripts/local-synthetic-alpha/permits.ts:50-67 | Over any sequence of presentations of any permits, one is accepted exactly when it is the first of its permit, that permit was minted, and the binding matches |
| `Permits.VerdictsAreExact` | scripts/local-synthetic-alpha/permits.ts:54-67 | Over any sequence of presentations each verdict says exactly whether the permit was never minted, already presented, or which of domain, operation, kind and generation differs first |
| `Permits.PermitAuthority.Mint` | scripts/local-synthetic-alpha/permits.ts:44-48 | A fresh permit is recorded unused with its binding; earlier records are unchanged |
| `Permits.PermitAuthority.Consume` | scripts/local-synthetic-alpha/permits.ts:54-67 | The verdict judges the record before the call; the record is spent whatever the verdict; no other record changes |
| `SyntheticOwners.SyntheticOwner.RunRevoke` | scripts/local-synthetic-alpha/harness.ts:492-503 | The fields change as the specified commit and release do |
| `SyntheticOwners.SyntheticOwner.Release` | scripts/local-synthetic-alpha/harness.ts:445-453 | The fields change as the specified release does, including the next operation of the queue |
| `SyntheticOwners.SyntheticOwner.Pump` | scripts/local-synthetic-alpha/harness.ts:425-436 | The fields change as the specified pump does: the head takes the gate and runs |
| `SyntheticOwners.SyntheticOwner.Execute` | scripts/local-synthetic-alpha/harness.ts:438-442 | The held operation runs to its first suspension or to settlement as specified |
| `SyntheticOwners.SyntheticOwner.AuthorizationFailure` | scripts/local-synthetic-alpha/harness.ts:456-462 | Returns exactly the specified reason to deny, or none |
| `SyntheticOwners.SyntheticOwner.Mint` | scripts/local-synthetic-alpha/harness.ts:795-800 | Mints for the current generation and records the event |
| `SyntheticOwners.SyntheticOwner.Consume` | scripts/local-synthetic-alpha/harness.ts:802-829 | Accepts exactly when the binding matches and owner state, holder, transport, cancellation and generation all hold |
| `SyntheticOwners.SyntheticOwner.HttpBoundary` | scripts/local-synthetic-alpha/harness.ts:636-677 | Decision, hand-off and boundary result change as specified, fault by fault |
| `SyntheticOwners.SyntheticOwner.DenyHttp` | scripts/local-synthetic-alpha/harness.ts:601-613 | Denies without hand-off when the transport is gone, else through the boundary, as specified |
| `SyntheticOwners.SyntheticOwner.DenyWithoutEffect` | scripts/local-synthetic-alpha/harness.ts:562-569 | Denial and release change the state as specified |
| `SyntheticOwners.SyntheticOwner.AdmitProvider` | scripts/local-synthetic-alpha/harness.ts:529-544 | Consumes the permit and records exactly one job, as specified |
| `SyntheticOwners.SyntheticOwner.StartProvider` | scripts/local-synthetic-alpha/harness.ts:522-526 | Admission, release and start of the completion change the state as specified |
| `SyntheticOwners.SyntheticOwner.FinishCompletion` | scripts/local-synthetic-alpha/harness.ts:547-560 | The completion is recorded, or ignored once stopped, as specified |
| `SyntheticOwners.SyntheticOwner.Boundary` | scripts/local-synthetic-alpha/harness.ts:573-599 | From the last check before the boundary on, the state changes as specified |
| `SyntheticOwners.SyntheticOwner.Enqueue` | scripts/local-synthetic-alpha/harness.ts:410-423 | Captures the expected generation, appends to the queue and pumps, as specified |
| `SyntheticOwners.SyntheticOwner.Request` | scripts/local-synthetic-alpha/harness.ts:348-388 | Creates an operation and either queues it or leaves it pending, as specified; null exactly when the owner is not running |
| `SyntheticOwners.SyntheticOwner.OnRequest` | scripts/local-synthetic-alpha/harness.ts:679-692 | A pending operation gets its response and is queued, as specified |
| `SyntheticOwners.SyntheticOwner.OnClientClose` | scripts/local-synthetic-alpha/harness.ts:780-789 | A pending operation whose connection closes is invalidated, as specified |
| `SyntheticOwners.SyntheticOwner.Cancel` | scripts/local-synthetic-alpha/harness.ts:390-400 | Returns true exactly when the operation has no decision and is neither admitted nor settled, on a reachable owner exactly when it has no decision, and then sets the request |
| `SyntheticOwners.SyntheticOwner.OnStoreOpen` | scripts/local-synthetic-alpha/harness.ts:471-478 | An opened store barrier resumes the operation as specified |
| `SyntheticOwners.SyntheticOwner.AfterStoreOutcome` | scripts/local-synthetic-alpha/harness.ts:511-521 | After the store outcome the operation denies, waits or crosses the boundary as specified |
| `SyntheticOwners.SyntheticOwner.OnPreBoundaryOpen` | scripts/local-synthetic-alpha/harness.ts:513-521 | An opened pre-boundary barrier resumes the operation as specified |
| `SyntheticOwners.SyntheticOwner.OnFinish` | scripts/local-synthetic-alpha/harness.ts:643-647 | `finish` is recorded and resolves the boundary once, as specified |
| `SyntheticOwners.SyntheticOwner.OnError` | scripts/local-synthetic-alpha/harness.ts:648-652 | `error` resolves the boundary as terminal, as specified |
| `SyntheticOwners.SyntheticOwner.OnClose` | scripts/local-synthetic-alpha/harness.ts:653-658 | `close` without finish resolves the boundary as terminal and loses the transport, as specified |
| `SyntheticOwners.SyntheticOwner.OnServerClose` | scripts/local-synthetic-alpha/harness.ts:712-722 | A lost transport poisons the owner exactly when the operation holds its gate |
| `SyntheticOwners.SyntheticOwner.AfterHttp` | scripts/local-synthetic-alpha/harness.ts:615-621 | A finished boundary releases, a terminal one poisons, as specified |
| `SyntheticOwners.SyntheticOwner.OnCompletionOpen` | scripts/local-synthetic-alpha/harness.ts:547-560 | An opened completion barrier records the completion as specified |
| `SyntheticOwners.SyntheticOwner.InvalidateAll` | scripts/local-synthetic-alpha/harness.ts:845-857 | Invalidates every queued, held and pending operation and changes nothing else |
| `SyntheticOwners.SyntheticOwner.Poison` | scripts/local-synthetic-alpha/harness.ts:837-843 | A running owner becomes poisoned and invalidates everything; any other is unchanged |
| `SyntheticOwners.SyntheticOwner.Stop` | scripts/local-synthetic-alpha/harness.ts:885-889 | The owner becomes stopped and invalidates everything |
| `SyntheticOwners.Perform` | scripts/local-synthetic-alpha/harness.ts:348-889 | Every atomic step on the objects changes their view as the step relation says, so every theorem over runs holds of them |
| `SyntheticOwners.PerformOn` | scripts/local-synthetic-alpha/harness.ts:390-889 | The same for each event that concerns one operation |
| `CanonicalMeaning.NormalizedIffDenotes` | packages/contracts/src/canonical-json.ts:10-45 | Normalising with no ancestors returns a tree exactly when the value stands for that tree |
| `CanonicalTheorems.FailsExactlyOnReachableFault` | packages/contracts/src/canonical-json.ts:10-45 | Normalising fails exactly when a cycle or an unsupported value can be reached, and the reported path leads to a fault of the reported kind |
| `CanonicalMeaning.DenotesUnique` | packages/contracts/src/canonical-json.ts:10-45 | A value stands for at most one tree |
| `Normalizers.Normalizer.Normalize` | packages/contracts/src/canonical-json.ts:10-45 | The code with its mutable ancestor set restores the set on every exit and returns the specified tree or located failure |
| `Normalizers.Normalizer.NormalizeItems` | packages/contracts/src/canonical-json.ts:26-28 | Elements are normalised in order, up to the first failure, with the set restored |
| `Normalizers.Normalizer.NormalizeMembers` | packages/contracts/src/canonical-json.ts:33-41 | Members are assigned in sorted key order, undefined ones skipped, with the set restored |
| `Normalizers.Canonicalize` | packages/contracts/src/canonical-json.ts:6-8 | Returns a text exactly when the value stands for a tree, and an independent RFC 8259 reader reads the text back as the visible data of that tree; otherwise the failure |
| `CanonicalTheorems.EqualTextIffSameOwnData` | packages/contracts/src/canonical-json.ts:6-8 | Two accepted values have equal texts exactly when their own members agree throughout |
| `CanonicalTheorems.EqualTextIffSameValue` | packages/contracts/src/canonical-json.ts:6-45 | Without a reachable `__proto__` member, texts are equal exactly when the two values stand for one tree |
| `CanonicalTheorems.TextDecidesExactlyWithoutProto` | packages/contracts/src/canonical-json.ts:33-41 | The text singles out the normal form, among those with nothing hidden, exactly when the value reaches no `__proto__` member |
| `CanonicalTheorems.ProtoMemberCollides` | packages/contracts/src/canonical-json.ts:39 | With a `__proto__` member equal text does not mean equal value: a concrete pair |
| `CanonicalTheorems.NormalizingTwice` | packages/contracts/src/canonical-json.ts:10-45 | What was returned is accepted again, and gives the same text again, exactly when no path of own members of the input leads to an object or array under `__proto__`; it is then the same visible data |
| `CanonicalTheorems.PlainIffNoContainerProto` | packages/contracts/src/canonical-json.ts:29-41 | The normal form has no object whose prototype became a container exactly when no such path exists in the input |
| `CanonicalTheorems.ProtoContainerIsRefusedAgain` | packages/contracts/src/canonical-json.ts:29-32 | A normal form whose prototype became a container is refused when normalised again: a concrete value |
| `CanonicalTheorems.NormalizingIsIdempotent` | packages/contracts/src/canonical-json.ts:10-45 | Without a `__proto__` member normalising again returns the same tree and text |
| `JsonEquality.EqualTextIffSameData` | packages/contracts/src/canonical-json.ts:7 | JSON text determines the data it prints, and only the data |
| `JsonEquality.PrintPrefix` | packages/contracts/src/canonical-json.ts:7 | A printed value can be read back from the front of any text that delimits it |
| `JsonEquality.SameDataIsEquality` | packages/contracts/src/canonical-json.ts:33-41 | For key-sorted trees with nothing hidden, the same data is the same tree |
| `JsonEquality.SameDataOfObjects` | packages/contracts/src/canonical-json.ts:33-41 | For key-sorted objects, agreeing listings mean the same keys in the same order with the same data |
| `JsonEquality.ListingDependsOnKeySet` | packages/contracts/src/canonical-json.ts:33-41 | The order in which members print depends only on the set of keys |
| `JsonTrees.ListingOrder` | packages/contracts/src/canonical-json.ts:33-41 | Printing lists array-index keys first and ascending, then the others in the order they were assigned |
| `JsonText.QuotePrefix` | packages/contracts/src/canonical-json.ts:7 | A quoted string can be read back from the front of any text, lone surrogates included |
| `JsonReader.ReadUndoesPrint` | packages/contracts/src/canonical-json.ts:7 | A reader of RFC 8259, sections 2 to 7, with its own escapes, words and numbers, reads every printed tree back as its visible data |
| `JsonReader.QuoteIsRead` | packages/contracts/src/canonical-json.ts:7 | That reader reads every quoted string back, whatever follows it |
| `JsonReader.EscapesAreShortest` | packages/contracts/src/canonical-json.ts:7 | A unit that needs an escape has the short one if section 7 of RFC 8259 gives one, else four small hexadecimal digits; any other unit stands for itself |
| `JsonReader.EscapesOnlyWhatMust` | packages/contracts/src/canonical-json.ts:7 | Escaping a text changes it exactly when it holds a control character, a quote, a backslash or a lone surrogate |
| `JsonReader.MembersInOrder` | packages/contracts/src/canonical-json.ts:33-41 | Members assigned in key order are listed with index keys first, ascending by number, then the others in key order, and each is listed |
| `Decimals.IndexesAreNumerals` | scripts/private-workspace-g1/compare.ts:168 | The canonical array indexes are exactly the decimal numerals of the numbers below 2^32 - 1 |
| `JsText.LeqIsLexicographic` | packages/contracts/src/canonical-json.ts:35 | Strings are ordered lexicographically by code unit |
| `JsText.SortedKeysUnique` | packages/contracts/src/canonical-json.ts:35 | A set of keys has exactly one strictly sorted listing |
| `UnionFinds.UnionFind.Find` | packages/contracts/src/evidence-identity.ts:125-131 | Terminates under path halving, returns the representative, and changes no class |
| `UnionFinds.UnionFind.Halve` | packages/contracts/src/evidence-identity.ts:127 | Redirecting one link to its grandparent changes no representative and moves strictly up the ghost rank |
| `UnionFinds.UnionFind.Union` | packages/contracts/src/evidence-identity.ts:132-136 | Joins exactly the two classes, whichever index points at which |
| `WorkConflicts.UniteByAlias` | packages/contracts/src/evidence-identity.ts:138-145 | After the alias loop two records have one representative exactly when a chain of shared aliases links them |
| `WorkConflicts.UniteRecord` | packages/contracts/src/evidence-identity.ts:139-145 | One record keeps that equivalence for the aliases seen so far |
| `WorkIdentity.LaterUse` | packages/contracts/src/evidence-identity.ts:143 | One union per repeated alias keeps representatives and alias chains in step |
| `WorkConflicts.GroupByRoot` | packages/contracts/src/evidence-identity.ts:147-151 | Groups are the classes, in order of first appearance, members ascending |
| `WorkConflicts.FindConflicts` | packages/contracts/src/evidence-identity.ts:121-179 | Lists a conflict exactly when a chain of shared aliases links its records and they carry two values of its scheme, spelled doi:, pmid: or openalex:; sorted by scheme and joined citation ids under the collation of the process |
| `WorkTheorems.ReportIsExact` | packages/contracts/src/evidence-identity.ts:154-173 | A conflict is reported exactly when some cluster has two records and two values of the scheme, read off the literal alias prefixes, and it lists exactly their sorted citation ids and values |
| `WorkTheorems.ListingIsExact` | packages/contracts/src/evidence-identity.ts:154-179 | The returned list holds a conflict exactly when some cluster has it |
| `WorkTheorems.ReportCountsClusters` | packages/contracts/src/evidence-identity.ts:154-173 | Each conflicting cluster is reported exactly once for each scheme |
| `WorkTheorems.ReportIgnoresOrder` | packages/contracts/src/evidence-identity.ts:121-179 | Moving the records around leaves the multiset of conflicts unchanged |
| `WorkTheorems.ReportIsListed` | packages/contracts/src/evidence-identity.ts:174-178 | The returned list is in the order of its keys and holds exactly the conflicts of the clusters |
| `WorkTheorems.ListingIgnoresOrder` | packages/contracts/src/evidence-identity.ts:174-178 | Under a collation that tells the keys apart, moving the records around leaves the listed keys unchanged; with distinct citation ids that do not hold the joining bar it leaves the whole list unchanged |
| `WorkTheorems.KeysTell` | packages/contracts/src/evidence-identity.ts:174-178 | With such citation ids, scheme and joined citation ids say which conflict it is |
| `EvidenceIds.EncodeUtf16Component` | packages/contracts/src/evidence-identity.ts:30-36 | Unit k is spelled at position 4k by its four digits out of 0123456789abcdef, most significant first |
| `EvidenceIds.DecodeUtf16Component` | packages/contracts/src/evidence-identity.ts:38-47 | Accepts exactly the texts of complete groups of four such digits, and returns the string the text spells |
| `EvidenceIds.DecodeUndoesEncode` | packages/contracts/src/evidence-identity.ts:25-47 | Every string encodes to an accepted text that decodes to it |
| `EvidenceIds.EncodeUndoesDecode` | packages/contracts/src/evidence-identity.ts:38-47 | Every accepted text is the encoding of what it decodes to |
| `EvidenceIds.IdsAre` | packages/contracts/src/evidence-identity.ts:49-68 | Claim ids, citation ids and anchors, written out |
| `EvidenceIds.ClaimIdsDetermine` | packages/contracts/src/evidence-identity.ts:49-63 | Claim ids and citation ids determine version and local id, and no claim id is a citation id |
| `EvidenceIds.AnchorsDetermine` | packages/contracts/src/evidence-identity.ts:65-68 | Equal DOM anchors mean equal version and claim |
| `NativeEvidence.NativeEvidenceProblems` | scripts/private-workspace-g1/native-evidence-safety.ts:6-78 | The result is empty exactly when nothing the value contains discloses, is too long or lies too deep and the whole unfolding is within every budget; a disclosure refusal means a contained string discloses |
| `NativeEvidence.Inspection.Run` | scripts/private-workspace-g1/native-evidence-safety.ts:20-77 | The worklist terminates and visits every entry of the unfolding when it accepts |
| `NativeEvidence.Inspection.Step` | scripts/private-workspace-g1/native-evidence-safety.ts:33-37 | One pop keeps scheduled = visited + pending within the limit; the checks made at the pop never fire |
| `NativeEvidence.Inspection.Schedule` | scripts/private-workspace-g1/native-evidence-safety.ts:25-31 | Accepts exactly what fits the entry and depth limits, all or nothing |
| `NativeEvidence.Inspection.InspectText` | scripts/private-workspace-g1/native-evidence-safety.ts:37-52 | A string is refused for its size, the byte total or a disclosure; otherwise what JSON.parse makes of it is scheduled |
| `NativeEvidence.Inspection.InspectMember` | scripts/private-workspace-g1/native-evidence-safety.ts:54-75 | Key, child and decoded body of one member are scheduled, or a budget is exceeded |
| `NativeEvidence.AcceptedContainsNoSecret` | scripts/private-workspace-g1/native-evidence-safety.ts:13-19 | An accepted value contains, to any depth, no string that is flagged, too long, or includes a secret as it is or as JSON escapes it |
| `NativeEvidence.ContentsHold` | scripts/private-workspace-g1/native-evidence-safety.ts:54-75 | The traversal unfolds exactly what a value holds: items, keys, members, decoded bodyBase64 members, and what JSON.parse makes of each string, each one level deeper |
| `NativeEvidence.OneMemberGives` | scripts/private-workspace-g1/native-evidence-safety.ts:63-75 | A member gives its key and its value, and its decoded body exactly when it is a bodyBase64 string, in this order |
| `NativeEvidence.CleanExactly` | scripts/private-workspace-g1/native-evidence-safety.ts:6-78 | A value is clean exactly when everything it contains, to any depth, is harmless: no disclosure, not too long, not too deep |
| `NativeEvidence.TotalsUnfold` | scripts/private-workspace-g1/native-evidence-safety.ts:33-52 | An entry counts once, with its UTF-8 length if it is a string, and then so does all it holds |
| `NativeEvidence.ByteLengthIsUtf8` | scripts/private-workspace-g1/native-evidence-safety.ts:37-52 | The byte length is that of the UTF-8 encoding of the code points, lone surrogates counting three |
| `NativeEvidence.RepresentationsAre` | scripts/private-workspace-g1/native-evidence-safety.ts:13-19 | The representations are exactly each non-empty secret and its JSON-escaped form |
| `NativeEvidence.OpenedTotal` | scripts/private-workspace-g1/native-evidence-safety.ts:33-77 | Opening an entry moves exactly its own share from the pending account to the done one |
| `Backfill.Run` | scripts/backfill-canonical-graph.ts:53-134 | The batch loop terminates; every entry and figure of its manifest is said of the ids after the start, of what succeeds and of what enforces the contract |
| `Backfill.RunPage` | scripts/backfill-canonical-graph.ts:72-124 | One page is attempted in order up to the first failure; the cursor moves only on success |
| `Backfill.BatchSizeIsTransparent` | scripts/backfill-canonical-graph.ts:62-126 | With --all, two runs that differ only in batch size report the same, except that selectedCount may differ when an attempt failed |
| `Backfill.SelectedCoversAttempts` | scripts/backfill-canonical-graph.ts:65-73 | Every attempted id was fetched, less than one page is fetched beyond the last attempt, and nothing beyond it when no attempt failed |
| `Backfill.ManifestIsExact` | scripts/backfill-canonical-graph.ts:52-191 | Entry i is the attempt on the i-th id after the start, validated, materialized or failed, only the last may fail, all ids or one batch are attempted; fetched ids, counts, cursor, contract, failure and completeness follow |
| `Backfill.ProcessedIsAPrefix` | scripts/backfill-canonical-graph.ts:62-126 | The processed ids are the first ones after the start, up to the first failure |
| `Backfill.RestFollowsNextAfter` | scripts/backfill-canonical-graph.ts:128-134 | `remaining` counts exactly what is left; what follows nextAfter is what is left, if nextAfter is present, or the run failed, or it had no start |
| `Backfill.CompleteMeansAllProcessed` | scripts/backfill-canonical-graph.ts:132-191 | `complete` holds exactly when every id after the start was processed and a contract that was asked for was enforced; a contract is enforced only then |
| `Backfill.ResumingContinues` | scripts/backfill-canonical-graph.ts:185 | A failed run resumed from nextAfter continues with no gap and no repeat, whatever outcomes the second run meets, and the second run is complete exactly when together they processed everything and a contract it was asked for was enforced |
| `Backfill.SuccessfulRunContinuesExactly` | scripts/backfill-canonical-graph.ts:185 | A successful run's nextAfter continues exactly when some id followed its start, or it had no start, or there are no ids at all; otherwise it starts over |
| `Backfill.StartPastTheEndStartsOver` | scripts/backfill-canonical-graph.ts:185 | A successful run started past the last id reports no cursor, so a run from its nextAfter starts over: a concrete database |
| `Backfill.Database.AfterIsWhatFollows` | scripts/backfill-canonical-graph.ts:65-70 | In database order the ids greater than a cursor are exactly those after its position |
| `Findings.FindingSink.Add` | packages/atlas-check/src/evaluate.ts:47-57 | Keeps the finding, cleaned, below the cap and counts it above; kept + omitted = added |
| `Findings.FindingSink.Finish` | packages/atlas-check/src/evaluate.ts:59-69 | Returns all cleaned findings, or the first 999 and the notice that counts the rest, ordered by severity, path, line, rule and message |
| `Findings.ReportIsBoundedAndSorted` | packages/atlas-check/src/evaluate.ts:59-69 | At most 1,000 findings, sorted, exactly what was kept plus the notice; kept + omitted = added |
| `Findings.ReportIgnoresOrder` | packages/atlas-check/src/evaluate.ts:59-69 | The sequence of sort keys of a report depends only on which findings were kept and how many were not, and so does the whole report where keys tell the kept findings apart; equal keys stay in the order added |
| `Findings.KeyLeqIsOrder` | packages/atlas-check/src/evaluate.ts:660-674 | On severity, path, line, rule and message the five-part comparison is a linear order |
| `Sorting.SortedKeysIgnoreOrder` | packages/atlas-check/src/evaluate.ts:67 | The keys of a sorted listing depend only on which elements there are |
| `Sorting.SortIsStable` | packages/atlas-check/src/evaluate.ts:67 | Elements with equal keys keep their order |
| `Findings.PassesExactly` | packages/atlas-check/src/evaluate.ts:290-298 | A run passes exactly when nothing added was an error and fewer than 1,000 findings were added |
| `Findings.FindingLeqIs` | packages/atlas-check/src/evaluate.ts:660-674 | Findings are compared by severity, then lexicographically by path, by line, rule and message, absent paths and lines first |
| `Findings.FindingLeqIsOrder` | packages/atlas-check/src/evaluate.ts:660-674 | The five-part comparison is a total, transitive order |
| `Findings.CleanTextIsExact` | packages/atlas-check/src/evaluate.ts:654-658 | Cleaning keeps the first 4,000 units that are not control characters, in order |
| `Findings.ControlsAre` | packages/atlas-check/src/evaluate.ts:654-658 | The characters taken out, one by one: controls but tab, line feed and carriage return, and delete |
| `Findings.CleanTextIsClean` | packages/atlas-check/src/evaluate.ts:654-658 | Cleaned text has no control character, is bounded, and cleaning is idempotent |
| `Findings.CountsAddUp` | packages/atlas-check/src/evaluate.ts:290-293 | Errors, warnings and notices add up to the findings |
| `EvidenceGraph.NoErrorsExactly` | packages/atlas-check/src/evaluate.ts:443-611 | The graph check adds no error exactly when ids are unique, endpoints exist, and every assessment has the key of some relation |
| `EvidenceGraph.ApartKeysAreExact` | packages/atlas-check/src/evaluate.ts:520-542 | Where no assessment names a pair that overlaps the pair of a relation at an arrow, the check adds no error exactly when ids are unique, endpoints exist, and every assessment has its own relation |
| `EvidenceGraph.PairKeysExactOverIds` | packages/atlas-check/src/evaluate.ts:617-619 | Over given claim and citation ids, keys tell all pairs apart exactly when no two pairs overlap at an arrow |
| `EvidenceGraph.CheckIsExactOverIds` | packages/atlas-check/src/evaluate.ts:520-542 | For given claim and citation ids: the check is right about all artifacts over them exactly when no two pairs of those ids overlap at an arrow |
| `EvidenceGraph.OverlapHidesAMissingRelation` | packages/atlas-check/src/evaluate.ts:520-542 | From any overlap: artifacts in which an assessment without a relation passes unreported |
| `EvidenceGraph.ArrowFreeKeysAreExact` | packages/atlas-check/src/evaluate.ts:617-619 | If no claim id, or no citation id, used in pairs holds an arrow, no pairs overlap |
| `EvidenceGraph.PairKeysCollideExactly` | packages/atlas-check/src/evaluate.ts:617-619 | Two pairs share a key exactly when they are equal or overlap at an arrow |
| `EvidenceGraph.ArrowsHideAMissingRelation` | packages/atlas-check/src/evaluate.ts:520-542 | With arrows an assessment without a relation can pass unreported: a concrete input |
| `AtlasCheck.CheckEvidenceGraph` | packages/atlas-check/src/evaluate.ts:443-588 | Adds exactly the findings that are due, fault by fault, and as many as there are faults |
| `GraphExact.ReportsExactlyTheFaults` | packages/atlas-check/src/evaluate.ts:443-611 | Each rule stands, at its file and line, exactly for its fault: repeated id, absent anchor, claim without relation, citation without identifier, unknown endpoint, unknown subject, unrelated subject, omitted criterion, status that does not fit its rating, unverified review |
| `GraphExact.ReportsEachFaultOnce` | packages/atlas-check/src/evaluate.ts:443-611 | There are as many findings as faults |
| `GraphExact.ReportIsDue` | packages/atlas-check/src/evaluate.ts:288-299 | Below the cap the report holds exactly the due findings, cleaned |
| `AtlasCheck.UniqueIds` | packages/atlas-check/src/evaluate.ts:590-611 | Reports each id that occurred before and returns the set of ids |
| `AtlasCheck.CheckRelations` | packages/atlas-check/src/evaluate.ts:485-506 | Reports each relation with an unknown endpoint and collects pair keys and related claims |
| `AtlasCheck.CheckTrust` | packages/atlas-check/src/evaluate.ts:520-587 | Adds exactly the specified findings for every assessment |
| `AtlasCheck.CheckCriteria` | packages/atlas-check/src/evaluate.ts:543-572 | Adds one warning per omitted criterion and per status that does not match its rating |
| `AtlasCheck.CheckArtifacts` | packages/atlas-check/src/evaluate.ts:288-299 | On a fresh sink the graph check passes exactly when there are fewer than 1,000 faults and the artifacts are sound by pair key, which is to say sound where no pairs overlap; below the cap the report holds exactly the due findings |
| `Jsonl.ParseJsonlArtifact` | packages/contracts/src/artifacts.ts:221-256 | Reads up to the first line with text that has `maxRecords` valid lines before it; record k is that of the k-th valid line, the errors are those of the bad lines with their numbers, and the lines with text behind the cut are counted |
| `Jsonl.ParsedIsParse` | packages/contracts/src/artifacts.ts:221-256 | The specified result is such a reading: where it stops, which records and errors it keeps, and what it counts |
| `Jsonl.BlankIsAllSpace` | packages/contracts/src/artifacts.ts:230 | A line is skipped exactly when it holds white space only |
| `Jsonl.NothingIsLost` | packages/contracts/src/artifacts.ts:229-255 | Records + errors + truncatedCount = number of non-blank lines |
| `Jsonl.RecordsAreTheFirst` | packages/contracts/src/artifacts.ts:231-238 | The records are the first `maxRecords` valid ones in input order; truncated exactly when something was skipped |
| `Jsonl.SplitUndoesEnding` | packages/contracts/src/artifacts.ts:228 | Splitting recovers lines that end in a line feed, or in a carriage return and a line feed |
| `AtlasArtifacts.ReadJsonl` | packages/atlas-check/src/evaluate.ts:370-441 | Of the first 10,000 lines, returns the records of the valid ones with line and path, up to the line with text that follows 5,000 of them, and adds exactly one finding per bad line, per cut and per unreadable file |
| `AtlasArtifacts.FaultsAreExact` | packages/atlas-check/src/evaluate.ts:385-437 | A finding is added exactly for too many lines, too many records, a line that is no JSON, or a line the schema refuses, each with its rule and line |
| `AtlasArtifacts.AgreesWithParser` | packages/atlas-check/src/evaluate.ts:382-440 | For at most 10,000 lines: the same records as parseJsonlArtifact, checked = records + errors, one finding per error and one more at the cap |
| `AtlasArtifacts.LongFilesAreCut` | packages/atlas-check/src/evaluate.ts:385-395 | A longer file is read as if it ended after 10,000 lines and always yields an error finding |
| `Annotations.ReplacementsAreOneMap` | packages/atlas-check/src/render.ts:49-55 | The chained replacements equal one map over code units: no escape is escaped again |
| `Annotations.UnescapeUndoesEscape` | packages/atlas-check/src/render.ts:49-55 | Decoding percent codes by their hexadecimal value, of the units GitHub decodes in data and in properties, recovers every text |
| `GithubReport.AnnotationRoundTrip` | packages/atlas-check/src/render.ts:22-33 | Reading an annotation at the first `::`, commas and escapes recovers severity, path, line, column, rule and full text |
| `GithubReport.AnnotationIsOneLine` | packages/atlas-check/src/render.ts:22-33 | Every annotation is one line |
| `GithubReport.RenderGithub` | packages/atlas-check/src/render.ts:14-20 | One line per finding reads back as that finding, then a line that reads back as the numbers of errors, warnings, notices and records, then nothing |
| `GithubReport.SummaryIsRead` | packages/atlas-check/src/render.ts:16-18 | The summary line reads back as its four figures in this order |
| `GithubReport.ReportRoundTrip` | packages/atlas-check/src/render.ts:14-20 | Line i of a rendered report reads back as finding i and the summary as the counts; nothing else follows |
| `JsonPointer.Resolve` | scripts/private-workspace-g1/compare.ts:163-172 | The loop returns what walking the decoded keys reaches, which is RFC 6901 evaluation if no step leaves the data |
| `JsonPointer.EvaluatesToWhatIsNamed` | scripts/private-workspace-g1/compare.ts:166-170 | Evaluation finds exactly what the tokens name: own members by name, elements by the decimal numeral of their position |
| `JsonPointer.ReferencePointers` | scripts/private-workspace-g1/compare.ts:166-167 | The keys read from pointers of section 5 of RFC 6901 |
| `JsonPointer.KeysOfPointer` | scripts/private-workspace-g1/compare.ts:166-167 | For every token list, splitting and unescaping its encoding recovers the tokens |
| `JsonPointer.ValidPointersAreEncodings` | scripts/private-workspace-g1/compare.ts:166-167 | Every pointer RFC 6901 admits is the encoding of the keys that are read from it |
| `JsonPointer.TwoPassesAreOne` | scripts/private-workspace-g1/compare.ts:167 | Replacing `~1` before `~0` reads a well-escaped token as one pass does |
| `JsonPointer.WalkIsEvaluationExactly` | scripts/private-workspace-g1/compare.ts:166-170 | For every token list, the walk and RFC 6901 evaluation agree on all its prefixes exactly when no token is a non-member at which JavaScript still finds something |
| `JsonPointer.OrdinaryTokensEvaluate` | scripts/private-workspace-g1/compare.ts:168 | It is enough that no token is `length` or an inherited name |
| `JsonPointer.LengthIsNotAMember` | scripts/private-workspace-g1/compare.ts:168 | An array answers to `length`, which section 4 of RFC 6901 does not give it: a concrete input |
| `JsonPointer.ResolvesTokens` | scripts/private-workspace-g1/compare.ts:162-172 | For every token list, resolving its section 3 encoding is the walk; resolving it and its prefixes is RFC 6901 evaluation exactly when no step leaves the data |
| `JsonPointer.WalkFindsNoLess` | scripts/private-workspace-g1/compare.ts:166-170 | A walk that leaves the data finds something where evaluation finds nothing, or nothing as well; otherwise the two are equal |
| `GraphCuration.ValidateGraphCurationOutput` | packages/contracts/src/graph-curation.ts:61-100 | Accepts exactly when every proposal has known, distinct endpoints and known evidence, is not confirmed, and no two coincide; otherwise lists exactly the faults, each once, proposal by proposal |
| `GraphCuration.IssuesAreFaults` | packages/contracts/src/graph-curation.ts:79-98 | Which of the six issues stands for which fault of which proposal |
| `GraphCuration.EdgeKeyIsExact` | packages/contracts/src/graph-curation.ts:102-105 | Two edges have one key exactly when they are the same edge, where only `contradicts` has no direction |
| `GraphCuration.NoIssues` | packages/contracts/src/graph-curation.ts:79-98 | No issue is pushed for a prefix of proposals exactly when each of them passes |

## Left out

- Sockets, HTTP server and client, timers, the listener and the teardown report: their effects on the owner are environment steps.
- The process-global owner registry, the reentrancy guard, snapshots, `waitForTrace` and barrier bookkeeping; opening a barrier and resuming the operation are one environment step.
- Trace events that carry no state (cancellation requests, barriers, denials, invalidations, late resolutions, client observations); queued, held, minted, consumed, rejected, commit, job and poison events are kept.
- OwnerSteps.NextKeeps: the value-level state holds no permit table, because every permit is presented exactly once right after it is minted; the objects of `SyntheticOwners` use a real `PermitAuthority`.
- Status and body of the responses that are handed off; a hand-off is one event, and the reason of a denial is kept.
- Fixture data of a case beyond store outcome, gated stages, transport fault and completion; a completion that fails unexpectedly (internal-error) cannot occur in the model.
- CanonicalTheorems.EqualTextIffSameValue: sparse arrays and accessor properties are not representable; finite numbers are identified with the text Number::toString prints, and dates with their ISO string.
- Numbers parsed from text, `toJSON` methods and cross-realm prototypes.
- WorkConflicts.FindConflicts: `localeCompare` is a parameter, the collation of the process; the message, a fixed sentence around scheme and values, is dropped.
- `canonicalizeDoi`, `canonicalizePmid`, `canonicalizeOpenAlexId`: prefix stripping by regular expressions adds only easy members.
- `nativeLogEvidenceProblems`: a line split and one call of the modelled traversal.
- Backfill.Run: errors that end the process without a manifest, timestamps, backup ids and digests of the manifest, and option parsing; whether an id validates or materialises and whether the contract is enforced are parameters, and the set of ids does not change during or between runs.
- The Markdown checks, manifest checks, path safety and byte budgets of the bounded reader: its result for a path is a parameter.
- EvidenceGraph.NoErrorsExactly: the prose of messages and suggestions is a parameter; criteria are listed in the order of TRUST_CRITERIA.
- `renderText` and the JSON report format: concatenation without an inverse.
- GraphCuration.ValidateGraphCurationOutput: schema validation of packet and output is a parameter, and issue texts are constructors.
- The G1 scenario tables, fixtures, capture comparison, configuration parsing, enums and study summaries: finite data or single-branch facts.
