/** What the electron store writes: states, snapshots, receipts and ledger events, with hashes. A hash is the
    content it was taken of, so equal hashes mean equal contents and encodings are injective. */
module Records {
  import opened Common

  datatype Hash = Zeros | Digest(content: Content)

  datatype Content =
    | EventContent(sequence: int, tick: int, utc: string, kind: Kind, payload: Payload, prev: Hash)
    | StateContent(core: Core)
    | SealedContent(file: StateFile)
    | GenomeContent(genome: Genome)
    | ReceiptContent(receipt: Receipt)

  datatype Kind = BadKind | GENESIS | CLONE_GENESIS | SNAPSHOT | FORK | RESTORE | SUSPEND | RESUME | RETIRE
                | EXECUTION_REJECTED | REPLAY_REJECTED | EXECUTION_VERIFIED | EXECUTION_ERROR | OtherKind(name: string)

  datatype Payload =
    | NotAnObject
    | Nothing
    | OfGenesis(genome: Hash, state: Hash)
    | OfSnapshot(snapshot: Hash)
    | OfClone(parent: ElectronId, snapshot: Hash)
    | OfFork(child: ElectronId, snapshot: Hash)
    | OfRestore(snapshot: Hash, tampered: bool)
    | OfReceipt(path: ReceiptPath, receipt: Hash, eventLog: string)
    | OfRejection(reason: string)

  datatype ElectronId = ElectronId(name: string)

  datatype Status = READY | RUNNING | VERIFIED | FROZEN | SUSPENDED | FAULTED | BLOCKED | RETIRED

  datatype Genome = Genome(program: string, programHash: string)

  datatype Genesis = Created(utc: string, genome: Hash)
                   | Forked(utc: string, from: ElectronId, snapshot: Hash, genome: Hash)

  datatype Anchor = Anchor(events: nat, head: Hash)

  datatype Properties = Properties(state: Status, orbital: string, nodes: seq<string>, phase: nat, spinUp: bool)

  datatype Core = Core(
    id: ElectronId, generation: nat, parent: Option<ElectronId>, lineage: seq<ElectronId>, genesis: Genesis,
    genome: Genome, properties: Properties,
    tick: nat, instructions: nat, status: Status, base: Option<Hash>, lastReceipt: Option<ReceiptPath>,
    suspended: bool, retired: bool, integrity: Option<Anchor>)

  /** A state file: the core and the hashes sealed over it. */
  datatype StateFile = StateFile(core: Core, seal: Hash, genomeSeal: Hash)

  datatype Snapshot = Snapshot(hash: Hash, id: ElectronId, generation: nat, state: StateFile)

  datatype ReceiptPath = ReceiptPath(electron: ElectronId, tick: nat)

  datatype Receipt = Receipt(electron: ElectronId, tick: nat, eventLog: string, detail: string)

  /** A ledger record as read: possibly not an object, possibly with any field wrong. */
  datatype Record = Malformed
                  | Record(schema: string, sequence: int, tick: int, utc: string, kind: Kind, payload: Payload,
                           prev: Hash, hash: Hash)
}
