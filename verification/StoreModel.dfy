/** The electron store as a function on what is on disk: each call is the sequence of loads, saves, ledger
    appends and snapshot writes it makes, with every refusal at the point where it happens. */
module StoreModel {
  import opened Common
  import opened Records
  import opened Ledger

  datatype Config = Config(maxElectrons: nat, maxReceipts: nat, unbound: bool, strictNodes: bool)

  /** A clock reading: any non-empty text. */
  type Timestamp = s: string | s != "" witness "t"

  datatype Disk = Disk(states: map<ElectronId, StateFile>, ledgers: map<ElectronId, seq<Record>>,
                       snapshots: map<Hash, Snapshot>, receipts: map<ReceiptPath, Receipt>)

  datatype Refusal = UnknownElectron | Tampered | BadShape | BadLedger(why: Fault) | Quota | NotOperable | IsRetired
                   | AlreadySo | UnknownSnapshot | BadSnapshot | NotAncestor | Unauthorized | NoFreshId
                   | ExecutionRefused

  /** What is on disk after a call, and why it was refused if it was. */
  datatype Outcome = Outcome(disk: Disk, refused: Option<Refusal>)

  function Fine(d: Disk): Outcome { Outcome(d, None) }

  function Refuse(d: Disk, why: Refusal): Outcome { Outcome(d, Some(why)) }

  // ----- State files -----

  predicate NoRepeats(ids: seq<ElectronId>) {
    forall i, j :: 0 <= i < j < |ids| ==> ids[i] != ids[j]
  }

  predicate ShapeOk(c: Core) {
    && c.lineage != [] && c.lineage[|c.lineage| - 1] == c.id && NoRepeats(c.lineage)
    && c.properties.state == c.status
    && (c.retired ==> c.status == RETIRED)
    && (c.suspended && !c.retired ==> c.status == SUSPENDED)
  }

  function Seal(c: Core): StateFile {
    StateFile(c, Digest(StateContent(c)), Digest(GenomeContent(c.genome)))
  }

  predicate CheckState(f: StateFile) {
    ShapeOk(f.core) && f == Seal(f.core)
  }

  function Load(d: Disk, id: ElectronId): Result<Core, Refusal> {
    if id !in d.states then Refused(UnknownElectron)
    else if d.states[id].core.id != id || !CheckState(d.states[id]) then Refused(Tampered)
    else Ok(d.states[id].core)
  }

  function Save(d: Disk, c: Core): Outcome {
    if ShapeOk(c) then Fine(d.(states := d.states[c.id := Seal(c)])) else Refuse(d, BadShape)
  }

  function WithStatus(c: Core, s: Status): Core {
    c.(status := s, properties := c.properties.(state := s))
  }

  // ----- Ledger events -----

  function Events(d: Disk, id: ElectronId): seq<Record> {
    if id in d.ledgers then d.ledgers[id] else []
  }

  function Append(d: Disk, id: ElectronId, tick: nat, now: Timestamp, kind: Kind, payload: Payload): Outcome {
    var events := Events(d, id);
    match ChainVerdict(events)
    case Failed(_, why) => Refuse(d, BadLedger(why))
    case Verified(_, _, _) =>
      Fine(d.(ledgers := d.ledgers[id := events + [NextRecord(events, tick, now, kind, payload)]]))
  }

  function NextRecord(events: seq<Record>, tick: nat, now: Timestamp, kind: Kind, payload: Payload): Record {
    if Head(events).Some? then NewRecord(events, tick, now, kind, payload) else Malformed
  }

  function LastHash(events: seq<Record>): Hash {
    if events != [] && events[|events| - 1].Record? then events[|events| - 1].hash else Zeros
  }

  /** Seal the ledger's length and head into the state. */
  function Anchored(d: Disk, id: ElectronId): Outcome {
    match Load(d, id)
    case Refused(why) => Refuse(d, why)
    case Ok(c) => Save(d, c.(integrity := Some(Anchor(|Events(d, id)|, LastHash(Events(d, id))))))
  }

  /** Append an event, then anchor the state to the ledger as it now is. */
  function Event(d: Disk, id: ElectronId, tick: nat, now: Timestamp, kind: Kind, payload: Payload): Outcome {
    var appended := Append(d, id, tick, now, kind, payload);
    if appended.refused.Some? then appended else Anchored(appended.disk, id)
  }

  // ----- Lifecycle -----

  function NewCore(id: ElectronId, genome: Genome, now: Timestamp): Core {
    Core(id, 0, None, [id], Created(now, Digest(GenomeContent(genome))), genome,
         Properties(READY, "UNASSIGNED", [], 0, true), 0, 0, READY, None, None, false, false, None)
  }

  function Create(d: Disk, cfg: Config, id: ElectronId, genome: Genome, now: Timestamp): Outcome {
    if |d.states| >= cfg.maxElectrons then Refuse(d, Quota) else
    var c := NewCore(id, genome, now);
    var saved := Save(d, c);
    if saved.refused.Some? then saved else
    Event(saved.disk, id, 0, now, GENESIS, OfGenesis(Digest(GenomeContent(genome)), Seal(c).seal))
  }

  predicate Operable(c: Core) {
    !c.retired && !c.suspended && c.status != FAULTED && c.status != BLOCKED
  }

  function SnapshotOf(c: Core): Snapshot {
    Snapshot(Digest(SealedContent(Seal(c))), c.id, c.generation, Seal(c))
  }

  function LoadSnapshot(d: Disk, h: Hash): Result<Snapshot, Refusal> {
    if h !in d.snapshots then Refused(UnknownSnapshot) else
    var s := d.snapshots[h];
    if s.hash != h || Digest(SealedContent(s.state)) != h then Refused(BadSnapshot)
    else if s.id != s.state.core.id || s.generation != s.state.core.generation then Refused(BadSnapshot)
    else if !CheckState(s.state) then Refused(BadSnapshot)
    else Ok(s)
  }

  function Thawed(s: Status): Status {
    if s == RUNNING || s == FROZEN then READY else s
  }

  /** There is a snapshot under this hash that does not read back as this electron's. */
  predicate Clashes(d: Disk, snap: Snapshot) {
    snap.hash in d.snapshots &&
    match LoadSnapshot(d, snap.hash)
    case Refused(_) => true
    case Ok(prior) => prior.id != snap.id
  }

  /** Freeze, write the snapshot, record it, and point the electron at it. */
  function TakeSnapshot(d: Disk, id: ElectronId, now: Timestamp): Outcome {
    match Load(d, id)
    case Refused(why) => Refuse(d, why)
    case Ok(c) =>
      var frozen := WithStatus(c, FROZEN);
      var saved := Save(d, frozen);
      if saved.refused.Some? then saved else
      var snap := SnapshotOf(frozen);
      if Clashes(d, snap) then Refuse(saved.disk, BadSnapshot) else
      var written := if snap.hash in d.snapshots then saved.disk
                     else saved.disk.(snapshots := d.snapshots[snap.hash := snap]);
      var told := Event(written, id, c.tick, now, SNAPSHOT, OfSnapshot(snap.hash));
      if told.refused.Some? then told else
      match Load(told.disk, id)
      case Refused(why) => Refuse(told.disk, why)
      case Ok(c') => Save(told.disk, WithStatus(c'.(base := Some(snap.hash)), Thawed(c.status)))
  }

  /** The child starts from the parent's frozen state under its own identity. */
  function ChildOf(parent: Core, frozen: Core, child: ElectronId, h: Hash, now: Timestamp): Core {
    WithStatus(
      frozen.(id := child, parent := Some(parent.id), generation := parent.generation + 1,
              lineage := parent.lineage + [child],
              genesis := Forked(now, parent.id, h, frozen.genesis.genome),
              base := Some(h), suspended := false),
      READY)
  }

  function Fork(d: Disk, cfg: Config, id: ElectronId, child: ElectronId, now: Timestamp): Outcome {
    match Load(d, id)
    case Refused(why) => Refuse(d, why)
    case Ok(parent) =>
      if !Operable(parent) then Refuse(d, NotOperable)
      else if |d.states| >= cfg.maxElectrons then Refuse(d, Quota) else
      var snapped := TakeSnapshot(d, id, now);
      if snapped.refused.Some? then snapped
      else if child in snapped.disk.states then Refuse(snapped.disk, NoFreshId) else
      var frozen := WithStatus(parent, FROZEN);
      var h := SnapshotOf(frozen).hash;
      var c := ChildOf(parent, frozen, child, h, now);
      var saved := Save(snapped.disk, c);
      if saved.refused.Some? then saved else
      var born := Event(saved.disk, child, c.tick, now, CLONE_GENESIS, OfClone(id, h));
      if born.refused.Some? then born else
      Event(born.disk, id, parent.tick, now, FORK, OfFork(child, h))
  }

  predicate RecordsSnapshot(r: Record, h: Hash) {
    r.Record? && r.kind == SNAPSHOT && r.payload == OfSnapshot(h)
  }

  /** The snapshot's source is this electron or an ancestor, and the source's ledger names the snapshot. */
  function Authorization(d: Disk, lineage: seq<ElectronId>, h: Hash, source: ElectronId): Option<Refusal> {
    if source !in lineage then Some(NotAncestor)
    else match ChainVerdict(Events(d, source))
      case Failed(_, _) => Some(Unauthorized)
      case Verified(_, _, _) =>
        if exists i :: 0 <= i < |Events(d, source)| && RecordsSnapshot(Events(d, source)[i], h) then None
        else Some(Unauthorized)
  }

  /** The snapshot's state under the current identity; lifecycle controls are not rolled back. */
  function Restored(snap: Core, current: Core, h: Hash): Core {
    WithStatus(
      snap.(id := current.id, generation := current.generation, parent := current.parent, lineage := current.lineage,
            genesis := current.genesis, base := Some(h), retired := current.retired, suspended := current.suspended),
      if current.suspended then SUSPENDED else READY)
  }

  function Restore(d: Disk, id: ElectronId, h: Hash, now: Timestamp): Outcome {
    match LoadSnapshot(d, h)
    case Refused(why) => Refuse(d, why)
    case Ok(snap) =>
      if id !in d.states then Refuse(d, UnknownElectron)
      else if d.states[id].core.id != id then Refuse(d, Tampered) else
      var tampered := !CheckState(d.states[id]);
      var current := d.states[id].core;
      if current.retired then Refuse(d, IsRetired) else
      match Authorization(d, current.lineage, h, snap.state.core.id)
      case Some(why) => Refuse(d, why)
      case None =>
        var c := Restored(snap.state.core, current, h);
        var saved := Save(d, c);
        if saved.refused.Some? then saved else
        Event(saved.disk, id, c.tick, now, RESTORE, OfRestore(h, tampered))
  }

  function SetSuspended(d: Disk, id: ElectronId, value: bool, now: Timestamp): Outcome {
    match Load(d, id)
    case Refused(why) => Refuse(d, why)
    case Ok(c) =>
      if c.retired then Refuse(d, IsRetired)
      else if c.suspended == value then Refuse(d, AlreadySo) else
      var c' := WithStatus(c.(suspended := value), if value then SUSPENDED else READY);
      var saved := Save(d, c');
      if saved.refused.Some? then saved else
      Event(saved.disk, id, c.tick, now, if value then SUSPEND else RESUME, Nothing)
  }

  function Retire(d: Disk, id: ElectronId, now: Timestamp): Outcome {
    match Load(d, id)
    case Refused(why) => Refuse(d, why)
    case Ok(c) =>
      if c.retired then Refuse(d, IsRetired) else
      var saved := Save(d, WithStatus(c.(retired := true), RETIRED));
      if saved.refused.Some? then saved else
      Event(saved.disk, id, c.tick, now, Kind.RETIRE, Nothing)
  }

  // ----- Recording an execution -----

  /** Where, if anywhere, recording a result raises. */
  datatype Crash = NoCrash | BeforeReceipt | AfterReceipt

  datatype Execution = Execution(agreed: bool, fourNodes: bool, strict: bool, replayOk: bool, crash: Crash,
                                 nodes: seq<string>, rows: nat, eventLog: string, detail: string)

  /** Mark the electron faulted, record why, and refuse. */
  function FaultWith(d: Disk, id: ElectronId, tick: nat, now: Timestamp, kind: Kind, reason: string): Outcome {
    match Load(d, id)
    case Refused(why) => Refuse(d, why)
    case Ok(c) =>
      var saved := Save(d, WithStatus(c, FAULTED));
      if saved.refused.Some? then saved else
      var told := Event(saved.disk, id, tick, now, kind, OfRejection(reason));
      if told.refused.Some? then told else Refuse(told.disk, ExecutionRefused)
  }

  function Advanced(c: Core, path: ReceiptPath, e: Execution): Core {
    WithStatus(
      c.(properties := c.properties.(orbital := "DF0_FABRIC", nodes := e.nodes, phase := (c.properties.phase + 1) % 2,
                                     spinUp := !c.properties.spinUp),
         lastReceipt := Some(path), instructions := c.instructions + e.rows),
      VERIFIED)
  }

  function ReceiptCount(d: Disk, id: ElectronId): nat {
    |set p | p in d.receipts && p.electron == id|
  }

  predicate AtQuota(d: Disk, cfg: Config, id: ElectronId) {
    cfg.maxReceipts > 0 && ReceiptCount(d, id) >= cfg.maxReceipts
  }

  function WithReceipt(d: Disk, id: ElectronId, tick: nat, e: Execution): Disk {
    d.(receipts := d.receipts[ReceiptPath(id, tick) := Receipt(id, tick, e.eventLog, e.detail)])
  }

  /** An accepted result: write the receipt, advance the running electron, and record the receipt's hash. */
  function Complete(d: Disk, id: ElectronId, tick: nat, e: Execution, now: Timestamp): Outcome {
    var path := ReceiptPath(id, tick);
    var filed := WithReceipt(d, id, tick, e);
    if e.crash == AfterReceipt then FaultWith(filed, id, tick, now, EXECUTION_ERROR, "error") else
    match Load(filed, id)
    case Refused(why) => Refuse(filed, why)
    case Ok(c) =>
      var saved := Save(filed, Advanced(c, path, e));
      if saved.refused.Some? then saved else
      Event(saved.disk, id, tick, now, EXECUTION_VERIFIED,
            OfReceipt(path, Digest(ReceiptContent(filed.receipts[path])), e.eventLog))
  }

  datatype Rejection = Rejection(kind: Kind, reason: string)

  /** The first check a result fails before its receipt is written. */
  function Objection(cfg: Config, e: Execution): Option<Rejection> {
    if !e.agreed then Some(Rejection(EXECUTION_REJECTED, "verdict"))
    else if cfg.unbound then Some(Rejection(EXECUTION_REJECTED, "host_bridge_unbound"))
    else if (e.strict || cfg.strictNodes) && !e.fourNodes then
      Some(Rejection(EXECUTION_REJECTED, "unbound_required_node"))
    else if !e.replayOk then Some(Rejection(REPLAY_REJECTED, "replay"))
    else if e.crash == BeforeReceipt then Some(Rejection(EXECUTION_ERROR, "error"))
    else None
  }

  function Judged(d: Disk, cfg: Config, id: ElectronId, tick: nat, e: Execution, now: Timestamp): Outcome {
    match Objection(cfg, e)
    case Some(o) => FaultWith(d, id, tick, now, o.kind, o.reason)
    case None => Complete(d, id, tick, e, now)
  }

  function RecordExecution(d: Disk, cfg: Config, id: ElectronId, e: Execution, now: Timestamp): Outcome {
    match Load(d, id)
    case Refused(why) => Refuse(d, why)
    case Ok(c) =>
      if !Operable(c) then Refuse(d, NotOperable)
      else if AtQuota(d, cfg, id) then Refuse(d, Quota)
      else Attempt(d, cfg, id, c, e, now)
  }

  /** Save the electron as running, one tick on, and judge the result. */
  function Attempt(d: Disk, cfg: Config, id: ElectronId, c: Core, e: Execution, now: Timestamp): Outcome {
    var running := Save(d, WithStatus(c.(tick := c.tick + 1), RUNNING));
    if running.refused.Some? then running else Judged(running.disk, cfg, id, c.tick + 1, e, now)
  }

  // ----- Calls and runs -----

  datatype Call =
    | DoCreate(id: ElectronId, genome: Genome, now: Timestamp)
    | DoSnapshot(id: ElectronId, now: Timestamp)
    | DoFork(id: ElectronId, child: ElectronId, now: Timestamp)
    | DoRestore(id: ElectronId, snapshot: Hash, now: Timestamp)
    | DoSuspend(id: ElectronId, value: bool, now: Timestamp)
    | DoRetire(id: ElectronId, now: Timestamp)
    | DoRecord(id: ElectronId, execution: Execution, now: Timestamp)

  function Do(d: Disk, cfg: Config, call: Call): Outcome {
    match call
    case DoCreate(id, genome, now) => Create(d, cfg, id, genome, now)
    case DoSnapshot(id, now) => TakeSnapshot(d, id, now)
    case DoFork(id, child, now) => Fork(d, cfg, id, child, now)
    case DoRestore(id, h, now) => Restore(d, id, h, now)
    case DoSuspend(id, value, now) => SetSuspended(d, id, value, now)
    case DoRetire(id, now) => Retire(d, id, now)
    case DoRecord(id, e, now) => RecordExecution(d, cfg, id, e, now)
  }

  const EMPTY: Disk := Disk(map[], map[], map[], map[])

  /** The disk after a run of calls, refused ones included. */
  function After(cfg: Config, calls: seq<Call>): Disk {
    Run(Doing(cfg), calls)
  }

  function Doing(cfg: Config): (Disk, Call) -> Disk {
    (d, call) => Do(d, cfg, call).disk
  }

  function Run(step: (Disk, Call) -> Disk, calls: seq<Call>): Disk {
    if calls == [] then EMPTY else step(Run(step, calls[..|calls| - 1]), calls[|calls| - 1])
  }

  /** Created ids are new; ids are drawn at random and assumed never to repeat. */
  ghost predicate FreshIds(cfg: Config, calls: seq<Call>) {
    AllFresh(Doing(cfg), calls)
  }

  ghost predicate AllFresh(step: (Disk, Call) -> Disk, calls: seq<Call>) {
    forall i {:trigger FreshAt(step, calls, i)} :: 0 <= i < |calls| ==> FreshAt(step, calls, i)
  }

  ghost predicate FreshAt(step: (Disk, Call) -> Disk, calls: seq<Call>, i: nat)
    requires i < |calls|
  {
    IsFresh(Run(step, calls[..i]), calls[i])
  }

  predicate IsFresh(d: Disk, call: Call) {
    call.DoCreate? ==> call.id !in d.states
  }

  // ----- The audit -----

  predicate StateAudit(d: Disk, id: ElectronId)
    requires id in d.states
  {
    d.states[id].core.id == id && CheckState(d.states[id])
  }

  predicate LedgerAudit(d: Disk, id: ElectronId) {
    var events := Events(d, id);
    ChainVerdict(events).Verified? && events != [] && events[0].Record? && events[0].kind in {GENESIS, CLONE_GENESIS}
  }

  predicate AnchorAudit(d: Disk, id: ElectronId)
    requires id in d.states
  {
    match ChainVerdict(Events(d, id))
    case Failed(_, _) => false
    case Verified(n, head, _) => d.states[id].core.integrity == Some(Anchor(n, head))
  }

  predicate BaseAudit(d: Disk, id: ElectronId)
    requires id in d.states
  {
    var c := d.states[id].core;
    c.base == None ||
    (LoadSnapshot(d, c.base.value).Ok? &&
     Authorization(d, c.lineage, c.base.value, LoadSnapshot(d, c.base.value).value.state.core.id) == None)
  }

  /** The file an execution event names exists, hashes as recorded, and is about this electron and tick. */
  predicate ReceiptAudit(d: Disk, id: ElectronId, r: Record)
    requires r.Record?
  {
    r.payload.OfReceipt? && r.payload.path in d.receipts &&
    var receipt := d.receipts[r.payload.path];
    Digest(ReceiptContent(receipt)) == r.payload.receipt && receipt.electron == id && receipt.tick == r.tick
    && receipt.eventLog == r.payload.eventLog
  }

  predicate IsExecution(r: Record) {
    r.Record? && r.kind == EXECUTION_VERIFIED
  }

  predicate ReceiptsAudit(d: Disk, id: ElectronId) {
    forall i :: 0 <= i < |Events(d, id)| && IsExecution(Events(d, id)[i]) ==> ReceiptAudit(d, id, Events(d, id)[i])
  }

  predicate NamesReceipt(r: Record, path: ReceiptPath, h: Hash) {
    IsExecution(r) && r.payload.OfReceipt? && r.payload.path == path && r.payload.receipt == h
  }

  /** The last receipt is one of this electron's verified ones, or a line ancestor's ledger vouches for it. */
  predicate LastReceiptAudit(d: Disk, id: ElectronId)
    requires id in d.states
  {
    var c := d.states[id].core;
    c.lastReceipt == None ||
    var path := c.lastReceipt.value;
    || (exists i :: 0 <= i < |Events(d, id)| && IsExecution(Events(d, id)[i]) && ReceiptAudit(d, id, Events(d, id)[i])
                    && Events(d, id)[i].payload.path == path)
    || (path in d.receipts &&
        var source := d.receipts[path].electron;
        source in c.lineage && ChainVerdict(Events(d, source)).Verified?
        && exists i :: 0 <= i < |Events(d, source)| &&
                       NamesReceipt(Events(d, source)[i], path, Digest(ReceiptContent(d.receipts[path]))))
  }
}
