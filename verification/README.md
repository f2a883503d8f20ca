# Verified models of five subsystems

This project models five parts of the repository in Dafny and proves what they promise over all inputs and all runs.

1. **The row-witness compiler and its dialect bridge.** A list of 64-bit words is lowered to a register-machine
   program in four dialects, cut into segments and chained across nodes; `RowWitness`, `Lowering` and `Fabric` show
   that every way of running it ends at one short reference fold. `Mssl`, `Lctlc`, `Translate` and `Reachability`
   model the translator from the MSSL assembly language to LCTLC/1.1 rows and prove that it preserves meaning on one
   small-step machine (`Machine`); `MsslRules` says token by token what each kind of line becomes, `StepBudget` when
   the step budget suffices, and `Bridge` shows that lowering and translating commute.
2. **The ownership verifier and canonical text.** `Catalog` and `OwnershipVerifier` model the static verifier row by
   row; `LinearMachine` defines, without reference to its records, a machine whose objects are never copied, and
   proves that the verifier accepts exactly what runs there. `OwnershipRules` and `OwnershipFaults` say the same by
   the rows alone: what each does to each object, which programs are in order, and when each code is reported. `Text`,
   `MagicLine`, `CanonicalText` and `CanonicalRoundTrip` model the reader and the canonical writer and say exactly
   when they are inverse to each other; `TextFaults` says what each reading reports, and `UnmarkedText` what the text
   is read as when nothing is done to it first.
3. **Replicated data types, vector clocks and anti-entropy.** `Clocks`, `Counters`, `OrSet`, `LwwRegister`,
   `AntiEntropy` and `Reconciliation` prove the merge laws on the states that runs reach, and what one reconciliation
   call does.
4. **The electron store and its hash-chained ledger.** `Records`, `Ledger` and `StoreModel` treat every call as loads,
   saves, appends and snapshot writes on a disk; `LedgerRules` and `AuditRules` say what a verified ledger and the
   audit's checks are, field by field. `StoreInvariants` proves the audit's checks over every run of calls, refused
   ones included, `StoreEffects` what each call gives its caller, `StoreReceipts` when receipts survive, and
   `StoreOperability` how an electron that may not execute comes to be operable. `ElectronStore` is the object itself,
   which keeps its store consistent.
5. **Error composition.** `ErrorAlgebra` and `ErrorLaws` model the composition laws over exact reals, `ErrorOutcomes`
   says when a combined term comes out and of what kind, and `CorrelatedVariance` says which correlation coefficients
   make a variance of their result.

Code that changes state step by step is a class or a loop proved against a specification function; the theorems are
lemmas about those functions.

## How the model reads the code

- Hashes are symbolic: the hash of a content is that content under a constructor, which makes SHA-256 (section 6.2 of
  FIPS 180-4) collision-free and canonical JSON injective. A ledger line is written and read through any codec for which
  a written line reads back and no proper part of it reads, as holds of one-line JSON objects.
- Replica ids and the canonical texts of register values are known by their rank in text order.
- Machine arithmetic, services and capability checks are parameters of the machine; a lowering's proof asks only that
  multiplication and exclusive or wrap at the register width, at least 64 bits, and that the witness program may use the
  capability it names.
- Counter entries and version entries are non-negative, as every operation keeps them.
- MSSL lines arrive as classified tokens. A line made only of separators, on which the code stops with an index error,
  is the refusal `NoTokens`.
- The translator declares every unit's termination bounded, by the number of its rows and one step more; the paths of
  its control flow keep that bound exactly where there is no cycle (`StepBudget`).
- `FNV_OFFSET` is the constant in the code, which is not the published FNV-1a offset basis, and the fold multiplies
  before it combines, as the code does.
- The translator does not check that literals fit their fields; the lemmas about meaning ask for it, and
  `Translate.UnitReadableIffLiteralsFit` says it is exactly what reading the rows back needs.
- In the ownership verifier a row's numeric parameters, confidence and approximation flag are given as read; a
  confidence that is not a number cannot occur. Where the code visits a set of outputs in no fixed order, the model
  visits them as mentioned. Type names outside the thirteen owned ones are only known or unknown.
- Unicode composition (Unicode Standard Annex #15), upper-casing and the order of directive names are parameters with
  the assumptions in `CanonicalText.Sound`, which `MagicLine.AssumptionsCanBeMet` shows can hold together. The text is
  given as its lines.
- The canonical text as written has no leading `#` on its magic line, although its documentation calls it a
  serialization. Read as it stands it never gives its program back, and gives another one only where a directive or a
  lone cell spells a magic line (`UnmarkedText.UnmarkedIsNeverFaithful`, `UnmarkedText.UnmarkedReadsIff`); the
  round-trip theorem restores the mark first.
- New electron ids never repeat: `create` does not check, `fork` does. Clock readings are any non-empty texts.
- A `FAULTED` electron can be made operable by suspending and resuming it, although the message of the refusal asks for
  a restore (`StoreOperability.SuspendThenResumeRevives`); `StoreOperability.RevivesExactly` gives the exact calls.
- The store is consistent, `Good` on a disk and `Valid` of the object, as long as only the store writes to it. Each
  method's contract also says what it does to a disk that was edited from outside: loads are refused, and a restore is
  the way back.
- The correlated law accepts any coefficients, and its result may be negative although it is called a variance;
  `CorrelatedVariance` says when it is not.
- Error composition takes the square root as a parameter; the lemmas that need it ask that its square be its argument.

## Model

| member | source | states |
|---|---|---|
| RowWitness.ReferenceWitnessWords | adapter/dfabric/witness.py:111-116 | the loop returns the fold of the words from the low 64 bits of the accumulator, multiplying before the exclusive or, and stays below 2^64 |
| RowWitness.FoldIsBijection | adapter/dfabric/witness.py:111-116 | for fixed words the fold is a bijection on 64-bit accumulators: unfolding recovers the starting accumulator |
| RowWitness.StartingAccumulatorIsDetected | adapter/dfabric/witness.py:111-116 | accumulators that differ modulo 2^64 give different witnesses of the same words |
| RowWitness.SingleWordChangeIsDetected | adapter/dfabric/witness.py:111-116 | two lists of equal length that differ modulo 2^64 in exactly one word have different witnesses |
| RowWitness.FoldAppend | adapter/dfabric/witness.py:111-132 | folding a concatenation is folding the second part from the accumulator of the first |
| RowWitness.Segments | adapter/dfabric/witness.py:128-132 | the pieces concatenate back to the list, none is empty or over the maximum, and all but the last are full |
| Lowering.LoweredProgramComputesWitness | adapter/dfabric/witness.py:135-149 | on every machine with registers of at least 64 bits that wraps at its own width, the lowered program is still running after any fewer than 3n + 4 steps and then halts with the low 64 bits of R0 and R2 equal to the reference witness |
| Lowering.LowerLctlc11 | adapter/dfabric/witness.py:156-202 | refuses exactly when the list is empty or too long, and otherwise emits rows that mean the witness program; the 512-line refusal never fires |
| Lowering.LowerMssl | adapter/dfabric/witness.py:205-227 | refuses exactly when the list is empty or longer than 84 words, and otherwise emits lines that assemble to the witness program |
| Lowering.LowerLctlc12 | adapter/dfabric/witness.py:230-266 | refuses exactly when the list is empty or too long, and otherwise emits the unit's rows, which mean the witness program |
| Lowering.LowerQvm | adapter/dfabric/witness.py:269-306 | refuses exactly when the list is empty or longer than 21843 words, and otherwise emits the unit's machine rows, which mean the witness program |
| Lowering.LoweringRecord | adapter/dfabric/witness.py:309-332 | for each of the four nodes: refused exactly when the instruction count is over the node's ceiling or there are no words, and otherwise a program that means the witness program, with its reference witness |
| Lowering.Lctlc11MeansCore | adapter/dfabric/witness.py:156-202 | reading the emitted LCTLC/1.1 rows back gives the witness program, row for row |
| Lowering.Lctlc12MeansCore | adapter/dfabric/witness.py:230-266 | reading the emitted LCTLC/1.2 rows back gives the witness program, row for row |
| Lowering.QvmMeansCore | adapter/dfabric/witness.py:269-306 | reading the emitted VM rows back gives the witness program, row for row |
| Lowering.MsslMeansCore | adapter/dfabric/witness.py:205-227 | assembling the emitted MSSL lines gives the witness program, line for line |
| Mssl.AssembleReadsSpelling | tools/mssl_to_lctlc.py:185-270 | every instruction can be written as tokens and is then read as itself, whatever labels surround it |
| Reachability.Worklist | tools/mssl_to_lctlc.py:346-352 | the worklist terminates and the set it has seen is exactly the set of rows reachable from the first |
| Translate.Scan | tools/mssl_to_lctlc.py:140-179 | the first pass refuses exactly at the first faulty line, and otherwise returns the code, the labels and the declared capabilities |
| Translate.RowPass | tools/mssl_to_lctlc.py:185-309 | the row pass refuses at the first instruction that cannot be carried, and otherwise emits one row per instruction and lists the inert modes it dropped |
| Translate.DeriveCaps | tools/mssl_to_lctlc.py:311-320 | the derived capabilities are the needed ones in the fixed order |
| Translate.FirstDeadRow | tools/mssl_to_lctlc.py:333-363 | the reported row is the first one that no path from the entry reaches; none is reported exactly when all are reachable |
| Translate.Translate | tools/mssl_to_lctlc.py:128-400 | accepted exactly when the program is acceptable, with the unit's rows, entry, capabilities and step budget, the labels, the dropped modes and whether the declared capabilities differ; otherwise refused with the first fault in the order of the passes |
| MsslRules.AcceptableExactly | tools/mssl_to_lctlc.py:128-363 | accepted exactly when every literal is unsigned, every capability known, there is no data or unknown directive, every label is named once, one line asks for capabilities, there is an instruction, all of them can be carried and all rows reached |
| MsslRules.ThreeRegisterRow | tools/mssl_to_lctlc.py:228-233 | an arithmetic line is carried exactly when it has three registers and a slot; OUT is the first, IN the second and third in their order, and the mode is kept where it matters |
| MsslRules.TwoRegisterRow | tools/mssl_to_lctlc.py:210-238 | MOV and NOT: OUT the first register, IN the second |
| MsslRules.ShiftRow | tools/mssl_to_lctlc.py:239-244 | SHL and SHR: OUT, IN, the distance and the slot |
| MsslRules.ConstantRow | tools/mssl_to_lctlc.py:205-209 | MOVI: OUT, the literal and the slot |
| MsslRules.LoadRow | tools/mssl_to_lctlc.py:245-248 | LOAD: OUT, the address and the slot, with no mode |
| MsslRules.StoreRow | tools/mssl_to_lctlc.py:249-252 | STORE: IN, the address and the slot, with no mode |
| MsslRules.PushRow | tools/mssl_to_lctlc.py:253-256 | PUSH: IN and the slot |
| MsslRules.PopRow | tools/mssl_to_lctlc.py:257-260 | POP: OUT and the slot |
| MsslRules.CallRow | tools/mssl_to_lctlc.py:261-268 | SVC: the service, OUT, the two operands in their order and the slot |
| MsslRules.BranchRow | tools/mssl_to_lctlc.py:214-227 | JMP, JZ and JNZ: the row named by the label's or the number's index inside the program, and the slot, with no mode |
| MsslRules.BareRow | tools/mssl_to_lctlc.py:201-204 | NOP and HALT: the slot, with no mode |
| MsslRules.LabelNamesNext | tools/mssl_to_lctlc.py:140-179 | a label names the instruction that comes next after its line |
| MsslRules.CodeAt | tools/mssl_to_lctlc.py:140-179 | each instruction line is carried once, in order, with its line number |
| MsslRules.DroppedExactly | tools/mssl_to_lctlc.py:272-303 | the modes reported as dropped are those of exactly the instructions whose mode is not carried and not refused |
| Translate.RowMeansItsSource | tools/mssl_to_lctlc.py:272-309 | an emitted row read back means its source instruction, up to a mode that cannot be observed; branches by row name reach the row the label or number named |
| Translate.TranslationPreservesMeaning | tools/mssl_to_lctlc.py:128-309 | an accepted program whose literals fit runs, step for step and for any number of steps, through the same states as its rows: registers, memory, stack, flags, halt and traps |
| Translate.UnitReadableIffLiteralsFit | tools/mssl_to_lctlc.py:205-309 | the emitted rows can be read exactly when every literal fits its field; the translator itself does not check |
| Translate.EmittedRowsAreReachable | tools/mssl_to_lctlc.py:329-363 | in an accepted unit every emitted row is reachable in the control flow of the emitted rows themselves |
| Translate.CapsAreExact | tools/mssl_to_lctlc.py:311-327 | a capability is declared by the emitted unit exactly when some emitted instruction needs it |
| MsslRules.DeclaredIffAsked | tools/mssl_to_lctlc.py:311-327 | by operation and service: which instructions make the unit ask for which capability |
| MsslRules.CapsAreRanked | tools/mssl_to_lctlc.py:311-327 | the capabilities are declared in one fixed order |
| StepBudget.AcyclicProgramsFitTheirBudget | tools/mssl_to_lctlc.py:382-389 | a program whose emitted rows have no cycle in their control flow has stopped, from every state and on every machine, within the emitted max_steps |
| StepBudget.BudgetCoversFlowIffAcyclic | tools/mssl_to_lctlc.py:382-389 | in an accepted unit every path of the control flow is shorter than max_steps exactly when there is no cycle, and with a cycle there are paths of every length, although the unit is always declared bounded |
| StepBudget.ForwardIsAcyclic | tools/mssl_to_lctlc.py:329-363 | branches that only go forward make no cycle |
| StepBudget.BackwardBranchCanFit | tools/mssl_to_lctlc.py:382-389 | jump over a halt and back to it: accepted, with a backward branch, and stopped within max_steps |
| StepBudget.SpinOutlivesItsBudget | tools/mssl_to_lctlc.py:382-389 | a program that jumps to itself is accepted and is still running after any number of steps |
| Bridge.TranslateLowering | tools/mssl_to_lctlc.py:128-400 | translating the MSSL lowering of 1 to 84 words never refuses, drops no mode and reports no note |
| Bridge.BridgeCommutes | tools/mssl_to_lctlc.py:181-327 | translating the MSSL lowering gives, row by row, the direct LCTLC/1.1 lowering up to row and lane names and the defaulted mode, with capabilities exactly CONTROL and ARITH |
| Fabric.NodeAdapter.SubmitWords | adapter/dfabric/nodes.py:327-373 | a result is reported and remembered only if it equals the reference witness; a faithful native machine is refused only by the bound |
| Fabric.ExecutingMachineAnswers | adapter/dfabric/nodes.py:327-373 | a machine at least 64 bits wide that executes a program meaning the witness program, for any budget of at least 3n + 4 steps, reports the reference witness |
| Fabric.RunnerIsFaithful | adapter/dfabric/nodes.py:327-373 | the native machine that runs each program for as many steps as it has positions and eight more is faithful, so every promise about faithful nodes holds of it |
| Fabric.NodeAdapter.SubmitSegment | adapter/dfabric/fabric_runtime.py:145-163 | a segment of a chain starts from the accumulator the one before ended with, and ends at the witness of everything so far |
| Fabric.ChainTask | adapter/dfabric/fabric_runtime.py:145-163 | for every word list and segment size, whatever the node answers, the chain either refuses or ends at the reference witness of the whole list, with every record linked to the next; a faithful node is not refused |
| Fabric.FabricRun.Replica | adapter/dfabric/fabric_runtime.py:198-226 | either refuses, or every node's witness is the reference witness and the verdict is agreement |
| Fabric.FabricRun.HandOn | adapter/dfabric/fabric_runtime.py:228-280 | each segment runs on the node placed for it, starts where the last one ended, and its handoff is logged |
| Fabric.FabricRun.Pipeline | adapter/dfabric/fabric_runtime.py:228-295 | either refuses, or the chain covers the placed segments and agrees exactly when it ends at the reference witness, which it does whenever the placement covers all segments |
| Clocks.JoinIsSemilattice | core/reference/pacore/crdt.py:193-198 | pointwise maximum of counts is commutative, associative and idempotent on the stored maps |
| Clocks.MergeCounts | core/reference/pacore/crdt.py:193-198 | the merge loop computes the pointwise maximum and keeps the left map's keys |
| Clocks.VersionVector.Tick | core/reference/pacore/crdt.py:492-495 | only the replica's own entry grows, by one |
| Clocks.VersionVector.Merge | core/reference/pacore/crdt.py:497-501 | the merged vector is the join and keeps the receiver's id |
| Clocks.DominanceIsStrictOrder | core/reference/pacore/crdt.py:503-509 | strict dominance is irreflexive, asymmetric and transitive |
| Clocks.MergeIsLeastUpperBound | core/reference/pacore/crdt.py:497-501 | the merge is at or above both vectors and below every vector that is |
| Clocks.CompareIsPointwiseExactly | core/reference/pacore/crdt.py:515-522 | compare answers by pointwise order on every pair except two different maps that agree everywhere, which it calls concurrent |
| Clocks.StoredZeroLooksConcurrent | core/reference/pacore/crdt.py:515-522 | such a pair: an explicit zero entry against no entry |
| Clocks.VectorsCharacteriseCausality | core/reference/pacore/crdt.py:486-522 | in every run of ticks and merges one vector is pointwise at most another exactly when its holder has heard of no tick the other has not |
| Clocks.CompareReportsCausality | core/reference/pacore/crdt.py:515-522 | on the vectors of a run compare reports exactly how the sets of heard ticks are ordered |
| Counters.GCounter.Increment | core/reference/pacore/crdt.py:185-191 | adds to the replica's own count, refuses a negative amount |
| Counters.GCounter.Merge | core/reference/pacore/crdt.py:193-198 | the merged counts are the pointwise maximum |
| Counters.SumCounts | core/reference/pacore/crdt.py:200-201 | the value is the sum of the stored counts |
| Counters.CountsAreBounded | core/reference/pacore/crdt.py:185-198 | in every run no replica overstates what another added, and each states its own additions in full |
| Counters.AgreedValueIsTotal | core/reference/pacore/crdt.py:200-201 | after any run among a fleet the state a reconciliation agrees on has as its value the sum of all increments ever made |
| Counters.JoinUpDownIsSemilattice | core/reference/pacore/crdt.py:241-248 | merging up-down counters is commutative, associative and idempotent |
| Counters.PNCounter.Increment | core/reference/pacore/crdt.py:225-231 | a negative amount counts as a decrement |
| Counters.PNCounter.Decrement | core/reference/pacore/crdt.py:233-239 | a negative amount counts as an increment |
| Counters.AgreedValueIsNet | core/reference/pacore/crdt.py:241-251 | after any run a reconciled fleet of up-down counters reads the net of everything ever added |
| OrSet.ORSet.Add | core/reference/pacore/crdt.py:324-332 | the default tag is the next of the replica, and the element is visible under it |
| OrSet.ORSet.Remove | core/reference/pacore/crdt.py:334-337 | tombstones exactly the observed tags of the element and returns them |
| OrSet.ORSet.Merge | core/reference/pacore/crdt.py:343-349 | unions of entries and tombstones and the larger counter |
| OrSet.JoinSetsIsSemilattice | core/reference/pacore/crdt.py:343-349 | merging sets is commutative, associative and idempotent |
| OrSet.TagsWithinCounter | core/reference/pacore/crdt.py:324-349 | in every interleaving no tag held anywhere is numbered above its issuer's counter |
| OrSet.TagsAreFresh | core/reference/pacore/crdt.py:324-332 | different adds of a run create different tags |
| OrSet.TagNamesOneElement | core/reference/pacore/crdt.py:324-332 | in every run no tag, wherever held, names two elements |
| OrSet.TombstonesAreOfHeldEntries | core/reference/pacore/crdt.py:334-349 | a tombstone names only an entry the same replica holds |
| OrSet.AddIsVisibleAtOnce | core/reference/pacore/crdt.py:328-341 | an add is visible at its replica at once, whatever was removed before |
| OrSet.RemovalWasObserved | core/reference/pacore/crdt.py:334-349 | a held entry is hidden only if some remove of the run had observed it |
| OrSet.AddSurvivesUnobservingRemoves | core/reference/pacore/crdt.py:334-349 | an add survives every concurrent remove that did not observe it |
| OrSet.AgreedMembers | core/reference/pacore/crdt.py:343-353 | after any run the agreed set contains exactly the elements with some add that no remove observed |
| LwwRegister.LWWRegister.Set | core/reference/pacore/crdt.py:410-418 | a write takes the given timestamp or the next one, and counts in the version entry of its replica |
| LwwRegister.LWWRegister.Merge | core/reference/pacore/crdt.py:423-453 | refuses different policies, and otherwise keeps the dominating write and joins the versions |
| LwwRegister.MergeKeepsTheLater | core/reference/pacore/crdt.py:423-453 | a merge keeps one of the two writes: under the version-vector policy the receiver's where its version strictly dominates, and otherwise the one later by timestamp, then writer, then canonical text |
| LwwRegister.RunsAreRecorded | core/reference/pacore/crdt.py:410-453 | in every run of exchanges and of writes whose timestamps, given or automatic, rise at their replica, the timestamp is the largest version entry, the writer the greatest id attaining it, and the value the one written under them |
| LwwRegister.WriteKeepsStampIffItRises | core/reference/pacore/crdt.py:410-418 | a write keeps that, under a stamp its replica never used, exactly when its timestamp and id are later than what it replaces; an automatic one always is |
| LwwRegister.StampDeterminesValue | core/reference/pacore/crdt.py:410-418 | in every run of rising writes timestamp and writer determine the value, wherever held |
| LwwRegister.PoliciesAgree | core/reference/pacore/crdt.py:423-440 | under any two of the three clock policies the same one of two registers of a run wins |
| LwwRegister.PolicyDoesNotMatter | core/reference/pacore/crdt.py:423-453 | the three policies drive every run of rising writes through the same states |
| LwwRegister.MergeIsSemilattice | core/reference/pacore/crdt.py:442-453 | under every policy merge is commutative, associative and idempotent on the registers of a run |
| LwwRegister.VersionVectorCommutesExactly | core/reference/pacore/crdt.py:423-440 | whatever the timestamps, the version-vector policy commutes on exactly those pairs where dominance and stamp do not disagree |
| LwwRegister.LoweredTimestampBreaksCommutativity | core/reference/pacore/crdt.py:410-440 | two copies of one replica's register, the newer written with a lowered timestamp, are a pair on which it does not |
| LwwRegister.AgreedIsLatest | core/reference/pacore/crdt.py:442-453 | what a fleet of rising writes is reconciled to carries a recorded write at least as late as any replica's |
| AntiEntropy.AntiEntropy.Sync | core/reference/pacore/crdt.py:677-693 | both replicas take the merge, the record says whether either hash changed, and unknown ids are refused |
| AntiEntropy.AntiEntropy.Round | core/reference/pacore/crdt.py:695-719 | one lexicographic pass over all pairs leaves every replica at the join of all starting states and reports a change exactly when they did not all hash alike |
| AntiEntropy.AntiEntropy.Converge | core/reference/pacore/crdt.py:695-719 | stops after one round if all states hashed alike and otherwise after two, when two are allowed, with every replica at the join of the starting states |
| AntiEntropy.JoinIsLeastUpperBound | core/reference/pacore/crdt.py:677-719 | the agreed state is above every starting state and below everything that is |
| AntiEntropy.Sorted | core/reference/pacore/crdt.py:695-719 | the ids are listed in order, each once |
| Reconciliation.ReconcileCounters | core/reference/pacore/crdt.py:695-719 | one call on any counter fleet of at least two leaves every replica with the same counts, whose value is the sum of all increments |
| Reconciliation.ReconcileSets | core/reference/pacore/crdt.py:695-719 | one call leaves every replica of a set fleet with exactly the elements some add of which no remove observed |
| Reconciliation.ReconcileRegisters | core/reference/pacore/crdt.py:695-719 | under any policy one call leaves every replica of a register fleet, after any run of rising writes, with one recorded write, none later |
| Reconciliation.ReconcileUpDown | core/reference/pacore/crdt.py:695-719 | one call on any fleet of up-down counters leaves every replica with the same counts, whose value is the net of everything added |
| Ledger.LedgerFile.ParseRecords | PHOTON/control_plane/vec1/ledger.py:10-26 | the records of the complete lines, whether the end is torn, and broken at the first unreadable earlier line |
| Ledger.LedgerFile.Verify | PHOTON/control_plane/vec1/ledger.py:29-65 | the verdict is verified, with count and head, exactly for a chain whose every record is in sequence, linked and hashed, in a file that is not torn |
| Ledger.LedgerFile.AppendEvent | PHOTON/control_plane/vec1/ledger.py:86-98 | refused exactly when the file does not verify, and otherwise the file is extended by the line of the record that continues the chain |
| Ledger.AnchorFixesHistory | PHOTON/control_plane/vec1/ledger.py:29-65 | two chains that verify with the same number of events and the same head are record for record equal |
| LedgerRules.ChainExactly | PHOTON/control_plane/vec1/ledger.py:29-65 | a chain verifies exactly when record i is number i, names the hash of the one before, is dated and typed, and hashes what it says; the head is the last hash |
| LedgerRules.FaultIsFirstFailing | PHOTON/control_plane/vec1/ledger.py:29-65 | a faulty record is reported for the first of the nine tests it fails |
| LedgerRules.VerifiedExactly | PHOTON/control_plane/vec1/ledger.py:10-65 | a file verifies exactly when it is missing, or ends after a line break with nothing but blanks, its lines are blank or readable, and their records are such a chain |
| Ledger.AppendKeepsChain | PHOTON/control_plane/vec1/ledger.py:86-98 | appending the next record gives a chain exactly when its tick, time, kind and payload are in order |
| Ledger.FirstFaultDecides | PHOTON/control_plane/vec1/ledger.py:29-65 | the first faulty record decides the verdict, whatever follows |
| Ledger.WholeLineAdds | PHOTON/control_plane/vec1/ledger.py:86-98 | a whole line written at the end adds its record |
| Ledger.CutLineIsTorn | PHOTON/control_plane/vec1/ledger.py:10-65 | a file cut strictly inside its last line is reported as torn |
| Ledger.AppendIsAllOrTorn | PHOTON/control_plane/vec1/ledger.py:86-98 | an append gives a verified file with the old records as prefix; after a cut inside the new line the file fails, so further appends are refused |
| StoreEffects.SavedLoadsBack | PHOTON/control_plane/vec1/core.py:173-196 | a state is stored exactly when it is well formed, then loads back as itself, and no other electron's file changes |
| StoreEffects.ForgedStateIsRefused | PHOTON/control_plane/vec1/core.py:159-182 | a state file edited under the seal of what it said before does not load |
| StoreInvariants.EventIsCommit | PHOTON/control_plane/vec1/core.py:209-216 | recording an event on a whole ledger appends one record and seals the ledger's new length and head into the state, and nothing else changes |
| StoreEffects.HashFixesSnapshot | PHOTON/control_plane/vec1/core.py:299-312 | what reads back under a snapshot hash is the same on every disk |
| StoreInvariants.SnapshotsAreAuthorized | PHOTON/control_plane/vec1/core.py:389-401 | in a consistent store every snapshot reads back, and restoring it is authorized exactly for those with its electron in their lineage |
| StoreInvariants.FaultIsCommit | PHOTON/control_plane/vec1/core.py:456-461 | a fault overwrites the running state with a faulted one, with its reason as the last event, and refuses the call |
| ElectronStore.ElectronStore.CreateElectron | PHOTON/control_plane/vec1/core.py:232-255 | in a consistent store, for a new id: refused exactly at the quota and then without effect; otherwise the store stays consistent and keeps what it held, and the new electron is alone in its lineage, has its genome, nothing done and one event, and is ready |
| ElectronStore.ElectronStore.SnapshotElectron | PHOTON/control_plane/vec1/core.py:271-297 | in a consistent store: refused, without effect, exactly for an unknown, retired or suspended electron; otherwise the electron changes only in pointing at a snapshot, which reads back as what it was, frozen, and has one event more, and no other electron changes |
| ElectronStore.ElectronStore.ForkElectron | PHOTON/control_plane/vec1/core.py:314-335 | in a consistent store: the exact refusals; otherwise the child extends the parent's lineage by itself, counts one generation more, continues from the parent's state and may execute, both point at one snapshot of the parent, and the parent changes in nothing else |
| ElectronStore.ElectronStore.Authorize | PHOTON/control_plane/vec1/core.py:389-401 | the source is in the lineage and its verified ledger names the snapshot, or the reason why not |
| ElectronStore.ElectronStore.RestoreElectron | PHOTON/control_plane/vec1/core.py:403-431 | in a consistent store: refused, without effect, exactly when the snapshot or the electron is missing, the electron is retired or the snapshot is of no one in its lineage; otherwise tick, counters, genome and receipt are the snapshot's, identity and suspension stay, and it may execute exactly when not suspended |
| StoreEffects.RestoreRecovers | PHOTON/control_plane/vec1/core.py:403-431 | restoring is the way back from a state file edited from outside: if the edit left the identity and did not hide a retirement, a snapshot of the electron's line makes the store consistent again, and the event says whether the file was unsealed |
| ElectronStore.ElectronStore.Suspend | PHOTON/control_plane/vec1/core.py:433-443 | in a consistent store: refused, without effect, exactly for an unknown or retired electron or one already so; otherwise only flag and status change, and it may execute exactly when resumed |
| ElectronStore.ElectronStore.RetireElectron | PHOTON/control_plane/vec1/core.py:445-453 | in a consistent store: refused, without effect, exactly for an unknown or already retired electron; otherwise it is retired, may not execute, and no other electron changes |
| ElectronStore.ElectronStore.Execute | PHOTON/control_plane/vec1/core.py:463-514 | in a consistent store: refused, without effect, exactly for an unknown electron, a retired, suspended, faulted or blocked one, or at the quota; otherwise unrefused exactly when the nodes agreed, the host is bound, four nodes took part where they must, the replay checked out and recording did not fail; its clock advances by one, it is verified or faulted with the event of the first check that failed, the receipt is filed once the checks are passed, and nothing else changes |
| ElectronStore.ElectronStore.AuditElectron | PHOTON/control_plane/vec1/core.py:520-561 | whether state seal, ledger, its first event, its anchor and the base snapshot check out, which for every electron of a consistent store they do |
| ElectronStore.ElectronStore.AuditReceipts | PHOTON/control_plane/vec1/core.py:556-574 | whether every recorded execution's receipt file exists, hashes as recorded and is about that electron and tick |
| AuditRules.StateExactly | PHOTON/control_plane/vec1/core.py:520-540 | the state check, field by field |
| AuditRules.LedgerExactly | PHOTON/control_plane/vec1/core.py:520-547 | the ledger, first-event and anchor checks: a whole chain that starts with a birth and whose length and head the state names |
| AuditRules.BaseExactly | PHOTON/control_plane/vec1/core.py:548-555 | the base-snapshot check: its hash is of what is stored, its electron is in the lineage, and that electron's whole ledger tells of it |
| AuditRules.ReceiptsExactly | PHOTON/control_plane/vec1/core.py:556-574 | the receipts check, field by field, of every verified execution |
| AuditRules.LastReceiptExactly | PHOTON/control_plane/vec1/core.py:575-592 | the last-receipt check: it stands as the electron's own, or the whole ledger of someone in the lineage vouches for it |
| StoreInvariants.CommitsToGood | PHOTON/control_plane/vec1/core.py:209-216 | a save followed by an event keeps state seal, ledger chain, ledger anchor, lineage and snapshot provenance mutually consistent, and keeps what was there |
| StoreInvariants.CreateIsGood | PHOTON/control_plane/vec1/core.py:232-255 | create keeps the disk consistent and is refused exactly at the quota |
| StoreInvariants.SnapshotIsGood | PHOTON/control_plane/vec1/core.py:271-293 | snapshot keeps the disk consistent and is refused, without effect, exactly for an unknown, retired or suspended electron, the last two through the save-time shape check |
| StoreInvariants.ForkIsGood | PHOTON/control_plane/vec1/core.py:314-335 | fork keeps the disk consistent and is refused exactly for an unknown or inoperable electron, at the quota, or without a fresh id |
| StoreInvariants.RestoreIsGood | PHOTON/control_plane/vec1/core.py:403-431 | restore keeps the disk consistent, has no effect when refused, and is refused exactly for a missing snapshot, an unknown or retired electron, or a snapshot of no one in its lineage |
| StoreInvariants.SuspendIsGood | PHOTON/control_plane/vec1/core.py:433-443 | suspend and resume keep the disk consistent, have no effect when refused, and are refused exactly for an unknown or retired electron or one already so |
| StoreInvariants.RetireIsGood | PHOTON/control_plane/vec1/core.py:445-453 | retire keeps the disk consistent, has no effect when refused, and is refused exactly for an unknown or retired electron |
| StoreInvariants.RecordIsCommit | PHOTON/control_plane/vec1/core.py:463-514 | an execution, accepted or rejected, is one commit: a verified state with its receipt or a faulted state with its reason, never one left running |
| StoreInvariants.RecordIsGood | PHOTON/control_plane/vec1/core.py:463-514 | recording an execution keeps the disk consistent; it is refused before it starts, without effect, exactly for an unknown or inoperable electron or at the quota, and afterwards exactly when the result is not accepted |
| StoreOperability.RevivesExactly | PHOTON/control_plane/vec1/core.py:257-263 | one call makes an inoperable electron operable exactly when it is the resume of a suspended electron that is not retired, or an unrefused restore of one that is not suspended |
| StoreOperability.SuspendThenResumeRevives | PHOTON/control_plane/vec1/core.py:257-443 | a faulted electron that is suspended and then resumed may execute again, with no restore, although the refusal asks for one; neither call is refused |
| StoreOperability.RunRevivesWithoutRestore | PHOTON/control_plane/vec1/core.py:433-443 | in every run that leaves an electron faulted those two calls more make it operable |
| StoreOperability.OnlyResumeOrRestoreRevives | PHOTON/control_plane/vec1/core.py:257-443 | in every run, between a point where an electron is inoperable and one where it is operable, there is such a resume or restore, made while it was inoperable |
| StoreInvariants.EveryRunPassesAudit | PHOTON/control_plane/vec1/core.py:520-597 | after every run of calls, completed and refused alike, every electron passes the audit's state, ledger, ledger-semantics, anchor and base-snapshot checks, and none is running |
| StoreInvariants.EveryRunHasLineageForest | PHOTON/control_plane/vec1/core.py:314-335 | in every run a lineage has no repeats, ends in its electron, counts the generation and extends the parent's lineage by one |
| StoreInvariants.IdentityIsForever | PHOTON/control_plane/vec1/core.py:403-431 | no later call of any run, restore included, changes an electron's lineage, parent, generation or genesis, and its ledger only grows |
| StoreInvariants.RetirementIsTerminal | PHOTON/control_plane/vec1/core.py:265-275 | once an electron is retired nothing later in the run changes its state or its ledger |
| StoreInvariants.RunKeeps | PHOTON/control_plane/vec1/core.py:403-514 | from any point of a run on identities stay, ledgers only grow and snapshots never change |
| StoreReceipts.ReceiptsSurviveIffNotOverwritten | PHOTON/control_plane/vec1/core.py:463-514 | where receipts are in order, a call leaves every electron's receipts in order exactly when it does not write its receipt over a different one that a recorded execution names |
| StoreReceipts.ReceiptsHoldUnlessOverwritten | PHOTON/control_plane/vec1/core.py:556-592 | in every run, restores included, in which no execution overwrites a named receipt, every electron passes the receipts and last-receipt checks |
| StoreReceipts.ReceiptsHoldWithoutRestore | PHOTON/control_plane/vec1/core.py:556-592 | in every run without a restore every electron passes the receipts and last-receipt checks |
| StoreReceipts.RestoreLetsReceiptsBeOverwritten | PHOTON/control_plane/vec1/core.py:421-430 | from any consistent disk with the receipts quota not reached: execute, restore a snapshot taken before and execute with another result, and the first execution's receipt no longer checks out |
| StoreReceipts.SomeRunOverwrites | PHOTON/control_plane/vec1/core.py:421-430 | such a run from the empty store, under every configuration that admits an electron and two receipts |
| StoreReceipts.LineageIsClosed | PHOTON/control_plane/vec1/core.py:314-335 | everyone in a lineage has its own lineage within it |
| RefSyntax.RefReadsBack | core/reference/pacore/lang.py:405-446 | a reference reads back from its own text |
| RefSyntax.KeyTextsDiffer | core/reference/pacore/lang.py:424-430 | distinct ownership keys have distinct texts, so records kept by text and records kept by key are the same |
| RefSyntax.KeysArise | core/reference/pacore/lang.py:416-446 | every key a cell refers to is the key of a well-formed reference |
| Catalog.KeyRange | core/reference/pacore/lang.py:416-430 | a range of indices stands for its keys, lowest first, up to but excluding the upper bound |
| OwnershipVerifier.CheckUses | core/reference/pacore/lang.py:958-980 | one code per faulty operand, in order |
| OwnershipVerifier.TeleportEach | core/reference/pacore/lang.py:1004-1020 | each source in turn is moved and its lineage carried to the destination, also where sources and destinations overlap |
| OwnershipVerifier.ReleaseEach | core/reference/pacore/lang.py:1031-1042 | live objects are released, unknown and released ones reported |
| OwnershipVerifier.Verify | core/reference/pacore/lang.py:821-1089 | accepted exactly when no code but the one warning is reported; the codes and final records are those of the rows in order |
| OwnershipRules.AcceptedIffInOrder | core/reference/pacore/lang.py:821-1089 | in terms of the rows alone, without the verifier's tables: accepted exactly when network and backend are shut off, every row's words, places, operands, protocol and condition are in order, and every row finds the objects it mentions as it must |
| OwnershipFaults.CodesAreFaults | core/reference/pacore/lang.py:821-1089 | each code is reported exactly when some row gives its cause, stated for each code over the rows and what the rows before did |
| OwnershipRules.AcceptedRowActs | core/reference/pacore/lang.py:935-1078 | every row of an accepted program makes, measures, releases, moves or merely touches each object as its operation says, and does nothing else to any object |
| OwnershipRules.MeasurementConsumes | core/reference/pacore/lang.py:992-1001 | a destructive operation marks the recorded objects of its A operand, or of its control where A is no reference, as measured; no other record changes |
| OwnershipRules.MeasurementIsFinal | core/reference/pacore/lang.py:962-1001 | what a measurement of an accepted program consumes is measured in the records and spent on the machine, and no later row that works on objects mentions it before a row makes it anew |
| OwnershipRules.GoneIsNotUsed | core/reference/pacore/lang.py:955-980 | the same for everything measured, moved or released |
| OwnershipRules.PreparationRenews | core/reference/pacore/lang.py:935-951 | a preparation makes each object its output refers to, or its output text where that refers to none, live at its node under a lineage never handed out before, each its own; no other record changes |
| OwnershipRules.LinkRenews | core/reference/pacore/lang.py:1022-1029 | a link does the same for its outputs |
| OwnershipRules.TeleportMoves | core/reference/pacore/lang.py:1004-1020 | a teleportation moves the i-th object of A to the i-th place of OUT, as far as the shorter goes and in that order, overlaps included: what arrived is live under the lineage carried there, what left is moved, all else is as it was |
| OwnershipRules.ReleaseReleases | core/reference/pacore/lang.py:1031-1042 | a release marks the recorded objects of A released; no other record changes |
| LinearMachine.AcceptedIffItRuns | core/reference/pacore/lang.py:821-1089 | a program is accepted exactly when its policy and its other checks are in order and it runs to the end on a machine of objects that are never copied and are stuck on any use of one that is not there; the records are then a view of that machine |
| LinearMachine.RowAgrees | core/reference/pacore/lang.py:935-1078 | for one row that is no preparation: no ownership code is reported exactly when the machine can run it, and then the records stay a view of the machine |
| LinearMachine.TeleportsAgree | core/reference/pacore/lang.py:1004-1020 | teleporting is faultless exactly when the machine can carry the objects one by one |
| LinearMachine.NoLineageIsLiveTwice | core/reference/pacore/lang.py:935-1078 | after every row of an accepted program no lineage is live under two keys |
| LinearMachine.OperandsAreLive | core/reference/pacore/lang.py:955-980 | every row of an accepted program that is no preparation uses only live objects, those of another node only through a distributed primitive, and nothing that looks quantum but was never prepared |
| LinearMachine.LostLineageStaysLost | core/reference/pacore/lang.py:991-1042 | a lineage that is live nowhere is never live again: what is measured, released or overwritten is gone for good |
| LinearMachine.OutputsAreNeverFirstRecordedHere | core/reference/pacore/lang.py:1071-1078 | in an accepted program the branch for newly created outputs never creates a record |
| LinearMachine.RunKeeps | core/reference/pacore/lang.py:935-1078 | on the machine every object is in one place and none comes back |
| Text.TidyIsTidy | core/reference/pacore/lang.py:38-43 | normalized text is empty or trimmed with single blanks, and normalizing it again changes nothing |
| Text.SplitJoin | core/reference/pacore/lang.py:537-538 | splitting a rendered row at the separator gives its cells back |
| MagicLine.ReadMagicIsSound | core/reference/pacore/lang.py:671-697 | what the magic pattern reads, written out after the mark, reads the same |
| MagicLine.AssumptionsCanBeMet | core/reference/pacore/lang.py:38-43 | the assumptions on composition, upper-casing, sorting and the magic line can be met together |
| CanonicalText.Parse | core/reference/pacore/lang.py:674-766 | the program and the faults are those of reading the lines one after the other |
| TextFaults.ReportedExactly | core/reference/pacore/lang.py:674-766 | each fault is reported exactly when there is cause for it: a row without a separator, with another number of cells than the columns in force there, or with the identity of another row; no magic line; a magic line but no row; a named column that is none of the default ones |
| TextFaults.RepeatedIdentityIsReported | core/reference/pacore/lang.py:749-752 | a program is read with a repeated identity reported exactly when two of its rows agree in it |
| TextFaults.ProgramIsRead | core/reference/pacore/lang.py:674-766 | the magic is what the first magic line says, each directive what its last line says, the columns those in force at the end, and the rows those of the lines with as many cells as columns, in order |
| TextFaults.ColumnsAreInForce | core/reference/pacore/lang.py:700-735 | every row is read under the columns of the last line before it that names columns, or the default ones |
| TextFaults.RowHasItsCells | core/reference/pacore/lang.py:737-754 | a row has the named columns and no others, each with the cell of its last place |
| TextFaults.BareDirectiveIsTrue | core/reference/pacore/lang.py:698-716 | a directive without a value says true |
| CanonicalRoundTrip.ParsedIsOk | core/reference/pacore/lang.py:674-766 | every directive, column name and cell a program is read with is in normal form |
| CanonicalRoundTrip.RowReadsBack | core/reference/pacore/lang.py:724-754 | a rendered row that does not look like a comment or directive is read as its own cells |
| CanonicalRoundTrip.FaithfulIffUnambiguous | core/reference/pacore/lang.py:648-655 | restoring the leading mark and re-reading the canonical text gives the same directives, columns and rendered rows exactly when there are two columns or more and no rendered row starts like a comment or directive, or there is one column without an alias separator and no row |
| CanonicalRoundTrip.CanonicalTextIsAFixpoint | core/reference/pacore/lang.py:645-658 | and then the canonical text of what was re-read is the same text |
| UnmarkedText.UnmarkedIsNeverFaithful | core/reference/pacore/lang.py:648-697 | for every parsed program, its canonical text read as it stands, without the mark, does not give the program back |
| UnmarkedText.UnmarkedReadsIff | core/reference/pacore/lang.py:648-697 | and it reads as some program exactly when the name and value of a directive spell a magic line or a rendered row is one, which takes a single column |
| UnmarkedText.DirectiveReadsAsMagicIff | core/reference/pacore/lang.py:671-697 | a directive's line is taken for a magic line exactly when its name is a dialect and its value a slash and a version, or its name ends in the slash and its value is a version |
| UnmarkedText.UnmarkedReadsAnother | core/reference/pacore/lang.py:648-697 | where nothing else is ambiguous it then reads with the same columns and rows, under the magic the directive spells, without that directive |
| UnmarkedText.ReadAnotherWay | core/reference/pacore/lang.py:648-697 | four lines for every pair of dialects and versions whose program does so |
| UnmarkedText.SomeTextIsReadAnotherWay | core/reference/pacore/lang.py:648-697 | among them: magic PA-LCTL/1.6, a directive LCTL with value / 1.6, two columns and one row |
| ErrorAlgebra.LawFor | core/reference/pacore/erroralgebra.py:255-260 | the first covering law in registry order, and at most one covers |
| ErrorOutcomes.LawsByKind | core/reference/pacore/erroralgebra.py:193-260 | which law composes which kind of term under which assumption |
| ErrorAlgebra.GroupDimensions | core/reference/pacore/erroralgebra.py:263-267 | each unit and kind with its own terms in order; there are several groups exactly when two terms differ |
| ErrorAlgebra.AddCrossTerms | core/reference/pacore/erroralgebra.py:376-387 | the nested loop adds the cross terms of every pair and reports whether every pair has a coefficient |
| ErrorAlgebra.Compose | core/reference/pacore/erroralgebra.py:274-415 | the result is unresolved, refused or combined exactly as composition under the selected law prescribes |
| ErrorOutcomes.CombinesExactly | core/reference/pacore/erroralgebra.py:274-415 | a combined term comes out exactly when the terms are alike, of one epoch and independent where that is assumed, and by kind the sum, product, variances and coefficients allow it |
| ErrorOutcomes.CombinedIsOf | core/reference/pacore/erroralgebra.py:398-415 | deviations and variances combine to a variance that is no probability, every other kind to its own kind and unit; the result is exact except under the small-error assumption |
| ErrorOutcomes.EarlierWordCounts | core/reference/pacore/erroralgebra.py:376-387 | the earlier term's word on a pair's correlation counts before the later one's |
| ErrorOutcomes.SuccessAndFailureComplement | core/reference/pacore/erroralgebra.py:345-350 | composing successes and composing the failures they leave are complements |
| ErrorLaws.CombinedMeansComparable | core/reference/pacore/erroralgebra.py:291-341 | a combined term comes only from terms of one unit and kind, with justified independence and at most one epoch, and carries that epoch and the least confidence, which some term has |
| ErrorLaws.CombinedIsValid | core/reference/pacore/erroralgebra.py:136-152 | what valid terms combine to is a valid term |
| ErrorLaws.BadTermExactly | core/reference/pacore/erroralgebra.py:398-408 | composing valid terms raises over the combined term exactly when a plain sum under L2 or L6 is given the unit of a probability and exceeds one |
| ErrorLaws.AdditiveBoundsExact | core/reference/pacore/erroralgebra.py:354-359 | for probabilities the additive law never understates the exact one and overstates it by at most the sum of the pairwise products |
| ErrorLaws.NeglectedIsSecondOrder | core/reference/pacore/erroralgebra.py:354-369 | the reported neglected magnitude lies between zero and the sum of the pairwise products, and there is a combined term exactly when the sum is at most one |
| ErrorLaws.AdditiveNeverUnderstates | core/reference/pacore/erroralgebra.py:345-369 | where both laws compose, the additive value is at least the exact one and at most that plus the sum of the pairwise products |
| ErrorLaws.GroupingDoesNotMatter | core/reference/pacore/erroralgebra.py:345-415 | under L1, L2, L3 and L6, composing groups first and then their results gives the very term that composing everything at once gives, or neither gives one |
| ErrorOutcomes.VarianceGroupingDoesNotMatter | core/reference/pacore/erroralgebra.py:370-415 | under L4 too: composing groups of independent deviations or variances and then their results gives the very term that composing all at once gives, or neither gives one |
| ErrorLaws.UncorrelatedIsIndependent | core/reference/pacore/erroralgebra.py:370-396 | with every correlation zero the correlated law gives the sum of the variances, as the independent law does |
| ErrorLaws.CorrelatedVarianceIsBounded | core/reference/pacore/erroralgebra.py:375-396 | with correlations at most one and non-negative deviations the combined variance is at most the square of the sum of the deviations |
| ErrorLaws.CorrelatedVarianceCanBeNegative | core/reference/pacore/erroralgebra.py:375-396 | coefficients in range are not enough: three unit deviations with every pair at minus one compose to minus three |
| CorrelatedVariance.TwoDeviationsExactly | core/reference/pacore/erroralgebra.py:375-396 | two deviations of either sign compose to a non-negative value, whatever they are, exactly when their coefficient lies between minus one and one |
| CorrelatedVariance.CommonCorrelationValue | core/reference/pacore/erroralgebra.py:375-396 | with one coefficient rho for every pair the value is (1 - rho) times the sum of the squares plus rho times the square of the sum |
| CorrelatedVariance.CommonCorrelationExactly | core/reference/pacore/erroralgebra.py:375-396 | n terms, two or more, that share a coefficient compose to a non-negative value at every choice of non-negative values exactly when the coefficient is at least -1/(n - 1) |
| CorrelatedVariance.SquareOfSumIsBounded | core/reference/pacore/erroralgebra.py:375-396 | the square of a sum of n deviations is at most n times the sum of their squares |
| CorrelatedVariance.WeaklyCorrelatedIsVariance | core/reference/pacore/erroralgebra.py:375-396 | whatever the terms: if no term's coefficients add up to more than one in magnitude, the combined value is not negative |

## Left out

- ElectronStore.ElectronStore.CreateElectron: ids are assumed new, because the code draws them at random without checking.
- StoreEffects.SavedLoadsBack: mailbox and queue quotas, policy strings, configuration and capability hashes and the update time are not part of a state file here.
- OwnershipVerifier.Verify: entanglement sets are not kept, as no check reads them, and a code carries neither its row nor its message.
- CanonicalText.Parse: line splitting and the warning texts are not modelled, only the codes.
- Lowering.LowerMssl: unit headers and comments are not compared, only what the lines assemble to.
- Lowering.LowerLctlc12: the unit header and its defaults are not represented, only the rows.
- Lowering.LowerQvm: the unit header, the qubit allocation and the terminal row are not represented, only the machine's rows.
- Translate.Translate: the texts of the notes and the recorded profile are not represented, and a line of separators only is a refusal here where the code stops with an index error.
- MagicLine.ReadMagicIsSound: a digit is one of the ten ASCII ones, while the code's pattern takes any Unicode decimal digit.
- UnmarkedText.UnmarkedReadsIff: likewise for the version that a directive or a row spells.
- RefSyntax.RefReadsBack: likewise for indices, which the code reads as numbers, so that other digits do not read back as written.
- Bulk-synchronous runs and the placement of work in the fabric: any worker may run a segment and failures propagate.
- Attestation, toolchain digests and process handling of the node adapters.
- GSet: a union of sets, easier than every type that is modelled.
- Sampling of CRDT laws, the consistency-contract table and quantum-value rejection.
- Comparing and normalizing electrons (`diff`, `equivalent`), and the summaries of the audit.
- Decimal, hexadecimal and angle literals in operand cells, and the schedule of coherence exposure.
- Monte-Carlo propagation and floating-point rounding: error terms are exact reals.
- Commutation analysis over complex matrices: its oracle sorts targets, so control and target orientation is lost.
- Locks, files, atomic writes, command lines and user interfaces.
