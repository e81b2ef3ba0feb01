# Verification models for WhippleScript

Dafny models of the protocol probes, the bounded JSON encoder and the source-tooling
algorithms of the WhippleScript repository, with proofs of what each of them is for.
`dafny verify dfyconfig.toml` checks the whole project.

| file | models |
|---|---|
| `Gate.dfy` | branch submissions, the policy-fenced trunk admission and crash recovery of `branch_trunk_gate.py`, for any number of branches |
| `Fence.dfy` | the single-authority admission policy and the two-authority reservation protocol of `admission_fence.py`, for any number of actors, with the refinement between them |
| `Lifecycle.dfy` | two dependent contribution units from writing to accounting, parking and branch closure, `contribution_lifecycle.py` |
| `Pins.dfy` | the pins that keep cuts alive for competing integration attempts, `flowing_attempt_pins.py`, for any number of attempts |
| `Composed.dfy` | ledger exclusion, branch hold, owner fence and trunk compare-and-set together, `composed_admission.py`, for any number of operators |
| `Json.dfy`, `Encoder.dfy`, `Bridge.dfy` | the encoder of `bridge.c`: a reference renderer and an RFC 8259 reader; the budgeted traversal of an object graph that may share and loop; the buffer it is written into |
| `Discovery.dfy` | the worklist closure and conservative routing of `edge_discovery.py` |
| `Blank.dfy`, `Literals.dfy` | the Rust comment and literal blanking lexer of `check-governed-operations.py`; whole texts made of code, comments and literals |
| `Edits.dfy`, `Target.dfy` | the edit combiner and the crash-safe file owner of `mutation_sweep.py` |
| `Projection.dfy` | the IR identity projection of `artifact_admission.py` |
| `Entrypoint.dfy`, `Inventory.dfy` | the lowering-inventory validator of `lowered-ir-to-maude.py`: each core object by itself, and the inventory as a whole |

The protocol models are state machines: a state datatype, an event per step the probe
yields, `Enabled` and `Apply` for its guard and effect, and `Runs`/`After` for whole runs.
The probes explore a few steps of a small instance; here the claims are about every run of
every length. One-shot flags that only keep the exploration finite (a single hold, crash,
takeover, revision or revocation, at most two operations, two twigs a branch) are lifted,
with one exception noted below. Scans written as loops, and code that updates variables or
fields, are methods and classes proved against specification functions about which the
properties are stated.

Some things the sources suggest do not hold in general. Each is kept as the code has it,
with an input that shows it and the exact condition under which it holds:

- An accounted first unit need not have been admitted at its current version, since a
  revision may fall between commit and accounting: `Lifecycle.AccountedAtUnadmittedVersion`,
  `Lifecycle.AdmittedVersionCurrent`. The dependent unit can then land on a version of its
  predecessor that never landed: `Lifecycle.DependentOnUnadmittedVersion`,
  `Lifecycle.DependentBasisAdmittedIff`.
- Leaving the file owner need not end with either the original restored and the recovery
  file gone, or someone else's bytes kept with the recovery file. A write of its own that
  breaks half way is taken for someone else's edit. A signal that arrives in `__exit__`
  before signals are ignored leaves the owner's own mutation in place. A deferred signal
  left over from a failed write keeps the recovery file after a good restore:
  `Target.TornWriteStays`, `Target.LateSignalLeavesMutation`,
  `Target.PendingSignalKeepsBackup`, `Target.PromiseIff`.
- An escaped character literal is not always one token of the blanking lexer; the literal of
  a single quote ends early and code can be blanked after it: `Literals.EscapeWholeIff`,
  `Literals.QuoteLiteralBlanksCode`.
- A raw C string is not one token either: the lexer opens an ordinary string at its quote.
  That string ends at the literal's own closing quote exactly when its body is also an
  ordinary string body, and otherwise code after it can be blanked: `Literals.RawCEndsIff`,
  `Literals.RawCBlanksCode`.

One property holds because of what the callers check first. The inventory validator taken
alone passes over unreadable graph entries and repeated names
(`Inventory.RepeatedNameAccepted`; `Inventory.CountsMatchIff` says exactly when). Both of its
callers have by then checked the graph against its schema and refused repeated names, so such
graphs are outside what it is given, and lowerings correspond one to one with graph entries:
`Inventory.CheckTrace`, `Inventory.EntriesCorrespond`. A reference can still belong to two
port pairs if a port holds an arrow; `Inventory.SharedRefIff` says exactly when.

## Model

| member | source | states |
|---|---|---|
| `Gate.StepInv` | models/research/branch_trunk_gate.py:68-202 | every step keeps the invariant: the log replays to trunk, every entry is certified by the state it was committed in, each branch has on trunk exactly its landed part, live operations are apart |
| `Gate.GateSafety` | models/research/branch_trunk_gate.py:68-236 | in every run with any number of branches the explorer finds no violation, and the changes of each branch on trunk are exactly its frontier, or its landed prefix before `finish`, in authored order |
| `Gate.InvTrunkNoDup` | models/research/branch_trunk_gate.py:229-232 | no change reaches trunk twice |
| `Gate.RunGrows` | models/research/branch_trunk_gate.py:68-202 | over a run log, trunk and heads only grow; trunk and log are untouched by every run without a commit or a foreign advance, in particular by crash and recovery |
| `Gate.CommitNamesState` | models/research/branch_trunk_gate.py:125-156 | the entry a commit writes names the trunk, base, prefix, delta, policy epoch and operation in force then, and lands exactly the next part of the head |
| `Gate.SubmissionRun` | models/research/branch_trunk_gate.py:80-102 | a live submission keeps the epoch it was made under, and the branch epoch counts exactly the holds and releases since |
| `Gate.CommitSawNoPolicyChange` | models/research/branch_trunk_gate.py:80-151 | between the submission of an operation and a state that can commit it there was no hold or release of that branch, not even one undone again |
| `Gate.EveryBranchCanSettle` | models/research/branch_trunk_gate.py:92-189 | from every reachable state, crashed, held, stale or landed but unfinished, a finite continuation without new contributions puts every whole head on trunk |
| `Gate.RecoverAll` | models/research/branch_trunk_gate.py:161-189 | the recovery loop finishes exactly the submissions found in the log and moves neither trunk nor log |
| `Gate.NoViolation` | models/research/branch_trunk_gate.py:205-236 | the scanning loop accepts a state exactly when the declarative checks hold of it |
| `Fence.PolicySafety` | models/research/admission_fence.py:30-77 | every run of the single-authority policy is free of violations: no admission under a hold or a changed policy, and only by the actor its fence was minted for |
| `Fence.SoundStep` | models/research/admission_fence.py:104-163 | every reservation step keeps tokens, tombstones and the active permit consistent: a permit that can still move trunk belongs to the current owner and no hold is acknowledged |
| `Fence.Simulation` | models/research/admission_fence.py:30-163 | each reservation step is matched by the policy steps it stands for: acknowledgements map to hold and takeover, the token CAS to the owner CAS, reserve, request, grant and revoke to nothing |
| `Fence.ReservationRefinesPolicy` | models/research/admission_fence.py:104-175 | every reservation run maps to a policy run ending in the state it implements, so it is free of violations too |
| `Fence.PolicyHistory` | models/research/admission_fence.py:30-63 | owner, epoch and trunk tell the history: the last taker, whether there ever was a hold or release, whether there was an admission |
| `Fence.PolicyCasHistory` | models/research/admission_fence.py:47-63 | a policy CAS is possible only with no hold, release or admission before it, and only for the actor that took over last |
| `Fence.CasHistory` | models/research/admission_fence.py:121-163 | however late grants arrive and however often actors crash and restart, a reservation run moves trunk at most once, never after an acknowledged hold, only by the actor of the last acknowledged takeover |
| `Fence.CandidateCanLand` | models/research/admission_fence.py:104-163 | revocation strands nothing: from every reachable state without an acknowledged hold some continuation lands the candidate |
| `Fence.CanLandIff` | models/research/admission_fence.py:104-163 | and before the admission that is exact: once a hold is acknowledged no continuation lands it |
| `Lifecycle.StepInv` | models/research/contribution_lifecycle.py:102-246 | every step keeps the invariant: a clean log, receipts exactly for accounted or committed units, no unit stranded at closure |
| `Lifecycle.LifecycleSafety` | models/research/contribution_lifecycle.py:102-281 | in every run no written unit is lost, no unit or operation is admitted twice, no admission crosses a fence, and the dependent unit lands with or after its predecessor on the version current at that commit |
| `Lifecycle.RunKeeps` | models/research/contribution_lifecycle.py:207-246 | accounted and parked are final, the log only grows, and once admission is disabled it never changes again |
| `Lifecycle.ClosedIsConserved` | models/research/contribution_lifecycle.py:231-246 | after acknowledged closure every written unit is accounted or parked |
| `Lifecycle.CommitNamesState` | models/research/contribution_lifecycle.py:170-210 | what a commit admits is fresh, at the current version, and for the dependent unit on the current basis with its predecessor admitted or selected |
| `Lifecycle.AdmittedVersionCurrent` | models/research/contribution_lifecycle.py:135-215 | the version a commit admitted is still current later exactly if no revision followed |
| `Lifecycle.AccountedAtUnadmittedVersion` | models/research/contribution_lifecycle.py:135-215 | a run that accounts the first unit at a version that was never admitted |
| `Lifecycle.DependentBasisAdmittedIff` | models/research/contribution_lifecycle.py:135-215 | the dependent unit is admitted on the version of its predecessor that was admitted exactly if no revision lies between the two commits |
| `Lifecycle.DependentOnUnadmittedVersion` | models/research/contribution_lifecycle.py:110-215 | a run that admits the dependent unit on a version of its predecessor that never was |
| `Lifecycle.CommitSawNoFence` | models/research/contribution_lifecycle.py:128-230 | between the submission of an operation and a state that can commit it there was no hold, release, revision, disabling or rebasing of a shared dependent, even one undone in between |
| `Lifecycle.EveryBranchCanClose` | models/research/contribution_lifecycle.py:102-246 | from every reachable state a finite run reaches acknowledged closure |
| `Lifecycle.NoViolationInLog` | models/research/contribution_lifecycle.py:257-273 | the scanning loop accepts exactly the clean logs |
| `Pins.StepInv` | models/research/flowing_attempt_pins.py:37-106 | every step keeps the invariant that ties pins, availability, attempt states and the admission together |
| `Pins.PinSafety` | models/research/flowing_attempt_pins.py:37-122 | in every run with any number of attempts no cut is collected while an owed unit, a checking attempt (source and candidate) or an unrecovered admission needs it, and at most one attempt is admitted |
| `Pins.AdmissionIsFinal` | models/research/flowing_attempt_pins.py:53-64 | once an attempt is admitted no later step replaces or undoes that |
| `Pins.EverythingReclaimable` | models/research/flowing_attempt_pins.py:65-106 | once the unit is admitted a finite continuation releases every pin and collects every cut, whatever has crashed or is still checking |
| `Composed.ComposedSafety` | models/research/composed_admission.py:41-140 | in every run there is no violation, and whoever holds the ledger validated it under that hold with nothing moved since |
| `Composed.LockHeldSince` | models/research/composed_admission.py:75-100 | a held ledger has been held without a break since its holder validated it, with norm revision and grant standing still |
| `Composed.CasUnderUnbrokenLock` | models/research/composed_admission.py:41-118 | a CAS fires only under one unbroken ledger hold since its validation, with revision and grant as validated, no hold, revocation or admission ever before, by the current owner with the owner's fence |
| `Composed.CanLandIff` | models/research/composed_admission.py:41-118 | before the admission, some continuation lands the candidate exactly if the branch was never held and the grant never revoked |
| `Json.ReadQuoted` | experiments/norm-wasi/bridge.c:74-86 | the escapes written for a string read back to its bytes |
| `Json.ReadInt` | experiments/norm-wasi/bridge.c:96-107 | the decimal text of an integer reads back as that integer |
| `Json.ReadRender` | experiments/norm-wasi/bridge.c:88-145 | reading the text of any value gives the value and leaves what follows |
| `Json.DecodeRender` | experiments/norm-wasi/bridge.c:88-145 | the text is a JSON text in the sense of sections 2 and 7 of RFC 8259 and decodes to the value, for values whose float texts are JSON numbers |
| `Json.RenderInjective` | experiments/norm-wasi/bridge.c:88-145 | different values have different texts |
| `Encoder.EmitStringExact` | experiments/norm-wasi/bridge.c:68-87 | encoding a string succeeds if and only if its length fits the string budget and its text the buffer, and then appends exactly that text |
| `Encoder.EmitValueExact` | experiments/norm-wasi/bridge.c:88-145 | the budgeted traversal succeeds if and only if the object denotes a tree of at most the depth limit whose text, string bytes and nodes fit, and then appends the text of that tree and uses up exactly its costs |
| `Encoder.PathsAreShort` | experiments/norm-wasi/bridge.c:88-91 | an object that denotes a tree has no path beyond the depth limit |
| `Encoder.CyclesHaveNoTree` | experiments/norm-wasi/bridge.c:88-145 | an object from which a path revisits an object denotes no tree at any depth |
| `Encoder.BufferNeverTheLimit` | experiments/norm-wasi/bridge.c:53-145 | from the initial budgets -7 is impossible for every object graph with float texts of at most 32 bytes |
| `Encoder.DecimalLength` | experiments/norm-wasi/bridge.c:96-107 | integers that fit a signed or unsigned 64-bit word have texts of at most 21 bytes |
| `Encoder.Culprit` | experiments/norm-wasi/bridge.c:88-145 | -5 comes with a path of containers through the depth limit, -3 with a reachable float that is not finite, -2 with a reachable object or key without a JSON form |
| `Bridge.Bridge.AppendBytes` | experiments/norm-wasi/bridge.c:61-66 | appends all bytes or none, never past the buffer |
| `Bridge.Bridge.EncodeString` | experiments/norm-wasi/bridge.c:68-87 | the byte loop has the outcome, buffer and budgets of the specification that `EmitStringExact` is about |
| `Bridge.Bridge.EncodeValue` | experiments/norm-wasi/bridge.c:88-145 | the recursion terminates on every object graph and has the outcome, buffer and budgets of the specification that `EmitValueExact` is about |
| `Bridge.Bridge.EncodeItems` | experiments/norm-wasi/bridge.c:117-128 | the same for the array loop |
| `Bridge.Bridge.EncodeEntries` | experiments/norm-wasi/bridge.c:129-142 | the same for the dictionary loop |
| `Bridge.Bridge.NormCallJson` | experiments/norm-wasi/bridge.c:147-161 | returns 0 exactly for a returned object that denotes a tree within all budgets; the published bytes then decode to that tree; every failure publishes length zero with its code, -1 exactly when there was no result |
| `Bridge.CyclicNeverEncodable` | experiments/norm-wasi/bridge.c:88-161 | a value that reaches a cycle is never published |
| `Discovery.ReverseClosure` | models/research/edge_discovery.py:35-46 | the worklist ends on every finite graph, cyclic or not, with exactly the roster members other than the root reachable through roster members |
| `Discovery.ComputeEnvelope` | models/research/edge_discovery.py:49-62 | the loop widens the known edges by exactly the universe edges of unresolved classes |
| `Discovery.Route` | models/research/edge_discovery.py:65-71 | routes to exactly those reachable over both envelopes |
| `Discovery.RouteAfterCapture` | models/research/edge_discovery.py:74-85 | a failed query gives no answer, a successful one the route |
| `Discovery.AffectedMonotone` | models/research/edge_discovery.py:35-46 | more edges never affect fewer owners |
| `Discovery.RouteCoversAffected` | models/research/edge_discovery.py:65-120 | if known edges and unresolved classes cover the actual edges of both cuts, the route contains every affected owner |
| `Discovery.RouteExactWhenComplete` | models/research/edge_discovery.py:65-120 | with nothing unresolved and exact edges it contains no other |
| `Blank.BlankText` | scripts/check-governed-operations.py:98-150 | the token loop returns the blanked text that the lemmas below are about |
| `Blank.TokenEnd` | scripts/check-governed-operations.py:105-149 | the branches find the end of the token at a position, or keep its character |
| `Blank.SkipComment` | scripts/check-governed-operations.py:111-121 | the nesting loop stops at the end of the comment |
| `Blank.SkipString` | scripts/check-governed-operations.py:128-134 | the escape loop stops past the closing quote or at the end of the text |
| `Blank.BlankShape` | scripts/check-governed-operations.py:98-150 | same length, newlines exactly where they were, every other character original or a space |
| `Blank.BlankAt` | scripts/check-governed-operations.py:98-150 | a character survives only where the lexer at that position keeps it |
| `Blank.BlankHasNoOpeners` | scripts/check-governed-operations.py:98-150 | no double quote and no comment opener is left, even one formed across a blanked token |
| `Blank.BlankIsIdentityIff` | scripts/check-governed-operations.py:98-150 | a text is left alone exactly when the lexer keeps every character of it |
| `Blank.BlankIdempotent` | scripts/check-governed-operations.py:98-150 | blanking twice is blanking once, for every text, terminated or not |
| `Blank.BlockCommentWhole` | scripts/check-governed-operations.py:111-121 | a well-nested block comment of any depth is one token that ends where the comment ends |
| `Blank.StringWhole` | scripts/check-governed-operations.py:128-134 | a string literal is one token, escaped quotes included |
| `Blank.RawStringWhole` | scripts/check-governed-operations.py:122-127 | a raw string is one token, ended only by a quote with as many hashes |
| `Literals.CharWhole` | scripts/check-governed-operations.py:135-146 | a plain character literal is one token |
| `Literals.EscapeWholeIff` | scripts/check-governed-operations.py:135-146 | an escaped one is one token exactly when the escaped text holds no single quote |
| `Literals.QuoteLiteralBlanksCode` | scripts/check-governed-operations.py:128-146 | after the literals of a single and a double quote all code without double quotes and backslashes is blanked |
| `Literals.RawStartsIff` | scripts/check-governed-operations.py:95-122 | the lexer's test for a raw string finds exactly an `r` or `br`, hashes and a quote |
| `Literals.KeepIff` | scripts/check-governed-operations.py:104-149 | the lexer keeps exactly the characters at which no comment and no literal opens, lifetimes included |
| `Literals.LiteralWhole` | scripts/check-governed-operations.py:104-149 | every well-formed comment, string, byte string, raw string and character literal is one token wherever it stands |
| `Literals.RawCEndsIff` | scripts/check-governed-operations.py:122-134 | the string opened at the quote of a raw C string ends at the literal's own closing quote exactly when its body is an ordinary string body, or the text is over there |
| `Literals.BodyIff` | scripts/check-governed-operations.py:128-134 | the string bodies meant there are exactly those of plain and escaped characters |
| `Literals.RawCBlanksCode` | scripts/check-governed-operations.py:122-134 | after a raw C string with a quote in its body all code without double quotes and backslashes is blanked |
| `Literals.BlankedWhole` | scripts/check-governed-operations.py:98-150 | in a text made of well-formed chunks the code stays and the comments and literals become spaces, all of them and nothing else; of C strings the prefix stays, and the hashes of raw ones |
| `Edits.GatherIff` | scripts/mutation_sweep.py:1565-1581 | the batch is accepted exactly when every site changes something, no edit lies before `start`, and no two edits touch or share an endpoint |
| `Edits.GatherEdits` | scripts/mutation_sweep.py:1565-1581 | the acceptance loops give that verdict, or the first refusal |
| `Edits.SortDownSorted` | scripts/mutation_sweep.py:1583-1583 | the reverse sort gives the same edits, strictly descending and apart |
| `Edits.SpliceAll` | scripts/mutation_sweep.py:1582-1585 | the splicing loop has the effect of the back-to-front application |
| `Edits.DownIsPiecewise` | scripts/mutation_sweep.py:1582-1585 | applying edits back to front equals walking the base once front to back |
| `Edits.DescendingUnique` | scripts/mutation_sweep.py:1583-1583 | the descending order is determined by the edits, not by the order of the sites |
| `Edits.BatchMutations` | scripts/mutation_sweep.py:1557-1585 | returns the back-to-front application of the accepted edits, with the lines before `start` as they were, or the refusal, for every base, site list and `start` |
| `Edits.BatchIsPiecewise` | scripts/mutation_sweep.py:1557-1585 | an accepted batch is the front-to-back replacement of its edits |
| `Edits.RealSourceUntouched` | scripts/mutation_sweep.py:1575-1585 | an accepted batch leaves the lines before `start` alone |
| `Edits.EditLands` | scripts/mutation_sweep.py:1577-1585 | an edit lands exactly between the result of the edits before it on the lines before it and the result of the edits after it on the lines after it |
| `Edits.EditIsSeparated` | scripts/mutation_sweep.py:1577-1585 | an untouched base line stands between an edit and each of its neighbours |
| `Target.RecordIsHistory` | scripts/mutation_sweep.py:1153-1170 | in every run the owner's record is the bytes of its last write that went through, or those it started with |
| `Target.OnlyOwnBytesOverwritten` | scripts/mutation_sweep.py:1135-1183 | in every run the owner changes the target only while it holds those bytes |
| `Target.ForeignBytesSurvive` | scripts/mutation_sweep.py:1135-1183 | what someone else puts in the target or removes at any point of any run stays that way through all later writes, failures, signals and the restore until the next edit, and once entered the recovery file keeps the original |
| `Target.OriginalNeverLost` | scripts/mutation_sweep.py:1135-1183 | in every run the owner touches no target before it has entered, the original is in one of the two files after that, and an existing recovery file is never touched |
| `Target.CleanExitIff` | scripts/mutation_sweep.py:1175-1183 | leaving restores the original and removes the recovery file exactly when the target holds the owner's bytes, no signal slips in first, there is nothing to restore or the write works with no deferred signal left, and the file can be removed |
| `Target.PromiseIff` | scripts/mutation_sweep.py:1117-1183 | in every run the promised pair of outcomes happens exactly when the last change of the target was someone else's and left other bytes than the owner's, or it holds the owner's and the restore works |
| `Target.TornWriteStays` | scripts/mutation_sweep.py:1153-1180 | a run without any outside edit in which the owner's own torn write is left in the target |
| `Target.LateSignalLeavesMutation` | scripts/mutation_sweep.py:1175-1179 | a run in which a signal before signals are ignored leaves the owner's mutation |
| `Target.PendingSignalKeepsBackup` | scripts/mutation_sweep.py:1161-1180 | a run in which a signal left over from a failed write keeps the recovery file |
| `Target.DeferredSignalRestores` | scripts/mutation_sweep.py:1144-1183 | in every run a signal during a good write is delivered after the write is recorded, and whatever signals follow the owner can leave cleanly |
| `Target.MutationTarget.constructor` | scripts/mutation_sweep.py:1126-1133 | the fields start as the state the runs start from |
| `Target.MutationTarget.Enter` | scripts/mutation_sweep.py:1135-1142 | keeps a recovery copy and takes over the signals, or refuses if there is a copy, it cannot be opened or written, or a signal comes in |
| `Target.MutationTarget.Interrupt` | scripts/mutation_sweep.py:1144-1151 | defers a signal during a write and otherwise ignores further ones and raises |
| `Target.MutationTarget.WriteBytes` | scripts/mutation_sweep.py:1153-1170 | has the effect and exception of the write step of the runs, whatever signals arrive during and after the write |
| `Target.MutationTarget.Exit` | scripts/mutation_sweep.py:1175-1183 | has the effect and exception of the exit step of the runs, a failing removal included, with the earlier handlers restored on every way out |
| `Projection.EraseMeaning` | scripts/artifact_admission.py:883-899 | a line ending in a marker and `digits..digits` loses exactly those offsets, every other line is unchanged, in whatever order the markers are tried |
| `Projection.EraseEqualIff` | scripts/artifact_admission.py:883-899 | two lines project equally exactly when they are equal or differ only in the offsets, or the erased field, after the same prefix and marker |
| `Projection.EraseIdempotent` | scripts/artifact_admission.py:883-899 | erasing twice is erasing once |
| `Projection.SplitLines` | scripts/artifact_admission.py:909-909 | splitting gives newline-free lines that join to the text |
| `Projection.SplitJoin` | scripts/artifact_admission.py:909-909 | joined newline-free lines split into themselves |
| `Projection.ProjectLines` | scripts/artifact_admission.py:902-909 | the projection works line by line and keeps the line count |
| `Projection.ProjectIdempotent` | scripts/artifact_admission.py:902-909 | projecting twice is projecting once |
| `Projection.ProjectEqualIff` | scripts/artifact_admission.py:902-909 | two snapshots have the same identity text exactly when they have as many lines and each pair is equal or differs only in offsets after one marker |
| `Inventory.TokenInjective` | scripts/lowered-ir-to-maude.py:757-766 | an owner token determines kind and reference |
| `Inventory.DuplicateRefs` | scripts/lowered-ir-to-maude.py:434-445 | lists exactly the references that occur more than once, each once |
| `Inventory.CollectLowerings` | scripts/lowered-ir-to-maude.py:1022-1083 | each lowering loop stops at an unreadable or unknown entry, and otherwise collects the references and records every produced object under its owner, in order |
| `Inventory.CheckOwners` | scripts/lowered-ir-to-maude.py:1119-1128 | accepts exactly the tables in which every produced object exists and has one owner |
| `Entrypoint.CheckKind` | scripts/lowered-ir-to-maude.py:769-861 | accepts exactly the named objects of a kind in the entrypoint table, with that entrypoint and all its references |
| `Entrypoint.TablesAgree` | scripts/lowered-ir-to-maude.py:76-125 | every kind and entrypoint of that table is supported and none is owned by the runtime, so the other tables never decide |
| `Entrypoint.FactIdSpellsRefs` | scripts/lowered-ir-to-maude.py:880-987 | the identifier of an accepted fact that a node owns spells out its owner, fact and schema |
| `Inventory.CheckObjects` | scripts/lowered-ir-to-maude.py:1130-1167 | accepts exactly if every object passes its own checks of kind, entrypoint, references and owner and is recorded under exactly its declared owner |
| `Inventory.InventoryIff` | scripts/lowered-ir-to-maude.py:1108-1161 | the table checks hold exactly when the produced references, as a multiset, are the declared object and owner pairs |
| `Inventory.ValidateInventory` | scripts/lowered-ir-to-maude.py:989-1167 | accepts exactly the reports whose node, edge and dependency lowerings name each graph reference once and whose produced references list each core object once, under the owner it declares |
| `Inventory.ListedIffDeclared` | scripts/lowered-ir-to-maude.py:989-1167 | in an accepted report a lowering lists an object exactly when a core object with that identifier declares that lowering as its owner |
| `Inventory.CheckTrace` | scripts/construct-graph-to-maude.py:962-983 | on a graph that follows its schema the trace check refuses exactly repeated node, edge and dependency names |
| `Inventory.EntriesCorrespond` | scripts/lowered-ir-to-maude.py:989-1107 | after that check, in an accepted report the lowerings of each kind correspond one to one with the entries of the graph |
| `Inventory.RepeatedNameAccepted` | scripts/lowered-ir-to-maude.py:989-1107 | the validator taken alone accepts a graph with a node listed twice and an entry that is none |
| `Inventory.CountsMatchIff` | scripts/lowered-ir-to-maude.py:989-1107 | for the validator taken alone, in an accepted report there are as many lowerings of a kind as graph entries exactly when those are all named, and apart |
| `Inventory.EdgeRefInjective` | scripts/lowered-ir-to-maude.py:418-419 | a port pair without arrows is determined by its reference |
| `Inventory.SharedRefIff` | scripts/lowered-ir-to-maude.py:418-419 | a port pair shares its reference with another pair exactly when one of its ports holds an arrow |
| `Inventory.ArrowlessEdgeLowered` | scripts/lowered-ir-to-maude.py:1001-1063 | in an accepted report every graph edge with arrowless ports has exactly one lowering with the same ports |

## Left out

- The `defect` branches, `explore`, `scenario` and `main` of the research probes: the proofs cover all runs; the fields that only a defect makes vary (`ref_revoke_attempted`, the validated principal's identity) go with them.
- The smaller probes: dependency update, derived cut commit, lock order and abandonment are single hand-offs between two parties, and seed coverage and construct inventory are fixed tables; each is settled by looking at its few states.
- The foreign trunk advance of the gate stays one-shot, because it always uses operation 0 and a second one would repeat an operation identifier in the probe itself.
- Gate.EveryBranchCanSettle: says that a continuation exists, as the probe's steps are unfair choices; no scheduling assumption is modelled. The same holds for the other continuation lemmas.
- Inventory.ValidateInventory: the messages of refusals are not modelled; only strings among a JSON object's fields matter to it, so other values are read as absent.
- Edits.BatchMutations: the mutator and the differ are not modelled; each site gives its changed ranges with their replacements, in the order the differ reports them.
- Target: signals before the handlers are installed or while they are put back, signals that cannot be caught, and edits in the middle of an operation.
- Encoder.BufferNeverTheLimit: float texts are given byte strings, so their bound is a hypothesis; a float text longer than 32 bytes is not produced by the conversion the code uses.
- Bridge: the CPython API, reference counts and destructors, `norm_call_values` and the host-side constructors; objects are an abstract heap of tagged nodes.
- Json: the reader takes `\u` escapes below 128 only, which covers all the encoder writes, and does not check that bytes are UTF-8.
- Blank.BlankText: which characters count as alphanumeric is a parameter; `scan`, `observe` and the frontier closure of the same script are not modelled.
- The regular-expression scanners and mutators of the sweep, the host-action and workstream check scripts, Maude emission, JSON Schema validation, hashing, and the Rust crates.
