/** What each call gives its caller on a consistent disk: when it is refused, what it leaves consistent, and what the
    electron is like afterwards. */
module StoreEffects {
  import opened Common
  import opened Records
  import opened Ledger
  import opened StoreModel
  import opened StoreInvariants

  // ----- Files -----

  /** A core is stored exactly when its lineage ends in it without repeats and its statuses and flags agree; it then
      loads back as itself, and otherwise nothing changes. Nobody else's file changes. */
  lemma SavedLoadsBack(d: Disk, c: Core, other: ElectronId)
    requires other != c.id
    ensures Save(d, c).refused == None <==>
            && |c.lineage| > 0 && c.lineage[|c.lineage| - 1] == c.id
            && (forall i, j :: 0 <= i < j < |c.lineage| ==> c.lineage[i] != c.lineage[j])
            && c.properties.state == c.status
            && (c.retired ==> c.status == RETIRED) && (c.suspended && !c.retired ==> c.status == SUSPENDED)
    ensures if Save(d, c).refused == None then Load(Save(d, c).disk, c.id) == Ok(c) else Save(d, c).disk == d
    ensures Load(Save(d, c).disk, other) == Load(d, other)
  {
  }

  /** A state file edited under the seal of what it said before does not load, whoever's it is. */
  lemma ForgedStateIsRefused(d: Disk, id: ElectronId, c: Core, forged: StateFile)
    requires forged.core != c && forged.seal == Seal(c).seal
    ensures Load(d.(states := d.states[id := forged]), id) == Refused(Tampered)
  {
  }

  /** A snapshot's hash fixes what reads back under it, on whatever disk. */
  lemma HashFixesSnapshot(d: Disk, e: Disk, h: Hash)
    requires LoadSnapshot(d, h).Ok? && LoadSnapshot(e, h).Ok?
    ensures LoadSnapshot(d, h) == LoadSnapshot(e, h)
  {
  }

  // ----- Calls -----

  ghost predicate OthersSame(d: Disk, later: Disk, id: ElectronId) {
    forall other :: other in d.states && other != id ==>
      other in later.states && later.states[other] == d.states[other] && Events(later, other) == Events(d, other)
  }

  /** The disk stays consistent and keeps what it held, and a call that refuses for this reason changes nothing. */
  ghost predicate Safe(d: Disk, o: Outcome, refused: Option<Refusal>) {
    Good(o.disk) && Kept(d, o.disk) && o.refused == refused && (refused.Some? ==> o.disk == d)
  }

  /** The electron is there, its ledger has this event more and nothing else, and nobody else is touched. */
  ghost predicate Told(d: Disk, later: Disk, id: ElectronId, tick: nat, now: Timestamp, kind: Kind, payload: Payload) {
    var n := |Events(d, id)|;
    && id in later.states && OthersSame(d, later, id) && |Events(later, id)| == n + 1
       && Events(later, id)[..n] == Events(d, id)
    && Tells(Events(later, id)[n], tick, now, kind, payload)
  }

  predicate Tells(r: Record, tick: nat, now: Timestamp, kind: Kind, payload: Payload) {
    r.Record? && r.tick == tick && r.utc == now && r.kind == kind && r.payload == payload
  }

  lemma CommitTells(d: Disk, c: Core, tick: nat, now: Timestamp, kind: Kind, payload: Payload)
    requires Head(Events(d, c.id)).Some?
    ensures var later := Commit(d, c, tick, now, kind, payload);
            && Told(d, later, c.id, tick, now, kind, payload)
            && later.states[c.id].core == c.(integrity := later.states[c.id].core.integrity)
            && later.receipts == d.receipts && later.snapshots == d.snapshots
  {
    var events := Events(d, c.id);
    var later := Commit(d, c, tick, now, kind, payload);
    assert Events(later, c.id) == events + [NewRecord(events, tick, now, kind, payload)];
  }

  /** A new electron: no ancestors, nothing done yet, ready, with the genome it was created with. */
  predicate Newborn(c: Core, id: ElectronId, genome: Genome, now: Timestamp) {
    && c.id == id && c.lineage == [id] && c.parent == None && c.generation == 0
    && c.genome == genome && c.genesis == Created(now, Digest(GenomeContent(genome)))
    && c.status == READY && c.properties == Properties(READY, "UNASSIGNED", [], 0, true)
    && c.tick == 0 && c.instructions == 0 && c.base == None && c.lastReceipt == None && !c.suspended && !c.retired
  }

  ghost predicate CreateGives(d: Disk, cfg: Config, id: ElectronId, genome: Genome, now: Timestamp, o: Outcome) {
    && Safe(d, o, if |d.states| >= cfg.maxElectrons then Some(Quota) else None)
    && (o.refused == None ==>
          && id in o.disk.states && OthersSame(d, o.disk, id) && Newborn(o.disk.states[id].core, id, genome, now)
          && |Events(o.disk, id)| == 1 && Events(o.disk, id)[0].Record? && Events(o.disk, id)[0].kind == GENESIS
          && o.disk.receipts == d.receipts && o.disk.snapshots == d.snapshots)
  }

  lemma CreateEffect(d: Disk, cfg: Config, id: ElectronId, genome: Genome, now: Timestamp)
    requires Good(d) && id !in d.states
    ensures CreateGives(d, cfg, id, genome, now, Create(d, cfg, id, genome, now))
  {
    CreateIsGood(d, cfg, id, genome, now);
    if |d.states| < cfg.maxElectrons {
      CreateIsCommit(d, cfg, id, genome, now);
      CommitTells(d, NewCore(id, genome, now), 0, now, GENESIS, GenesisPayload(NewCore(id, genome, now)));
    }
  }

  function SnapshotObjection(d: Disk, id: ElectronId): Option<Refusal> {
    if id !in d.states then Some(UnknownElectron)
    else if d.states[id].core.retired || d.states[id].core.suspended then Some(BadShape)
    else None
  }

  /** Apart from its anchor the electron differs only in pointing at a snapshot, which reads back as what it was,
      frozen. */
  ghost predicate PointsAtItself(d: Disk, later: Disk, id: ElectronId)
    requires id in d.states && id in later.states
  {
    var c, c' := d.states[id].core, later.states[id].core;
    && c' == c.(base := c'.base, integrity := c'.integrity)
    && c'.base.Some? && LoadSnapshot(later, c'.base.value).Ok?
    && LoadSnapshot(later, c'.base.value).value.state.core == WithStatus(c, FROZEN)
  }

  /** The electron points at its snapshot, and its last event names it. */
  ghost predicate SnapshotTold(d: Disk, later: Disk, id: ElectronId, now: Timestamp) {
    && id in d.states && id in later.states && PointsAtItself(d, later, id)
    && Told(d, later, id, d.states[id].core.tick, now, SNAPSHOT, OfSnapshot(later.states[id].core.base.value))
    && later.receipts == d.receipts
  }

  ghost predicate SnapshotGives(d: Disk, id: ElectronId, now: Timestamp, o: Outcome) {
    Safe(d, o, SnapshotObjection(d, id)) && (o.refused == None ==> SnapshotTold(d, o.disk, id, now))
  }

  lemma SnapshotPoints(d: Disk, id: ElectronId, now: Timestamp)
    requires Snappable(d, id)
    ensures Head(Events(d, id)).Some? && d.states[id].core.id == id
    ensures SnapshotTold(d, TakeSnapshot(d, id, now).disk, id, now)
  {
    SnapshotIsCommit(d, id, now);
    SnapshotIsWellFormed(d, id);
    var written, later := WithSnapshot(d, id), TakeSnapshot(d, id, now).disk;
    CommitTells(written, Pointed(d, id), d.states[id].core.tick, now, SNAPSHOT, OfSnapshot(Frozen(d, id).hash));
    assert Events(written, id) == Events(d, id);
    assert LoadSnapshot(later, Frozen(d, id).hash) == LoadSnapshot(written, Frozen(d, id).hash);
  }

  lemma SnapshotEffect(d: Disk, id: ElectronId, now: Timestamp)
    requires Good(d)
    ensures SnapshotGives(d, id, now, TakeSnapshot(d, id, now))
  {
    SnapshotIsGood(d, id, now);
    if SnapshotObjection(d, id) == None {
      SnapshotPoints(d, id, now);
    } else {
      KeptAtOnce(d);
    }
  }

  function ForkObjection(d: Disk, cfg: Config, id: ElectronId, child: ElectronId): Option<Refusal> {
    if id !in d.states then Some(UnknownElectron)
    else if !Operable(d.states[id].core) then Some(NotOperable)
    else if |d.states| >= cfg.maxElectrons then Some(Quota)
    else if child in d.states then Some(NoFreshId)
    else None
  }

  /** The child continues the parent's line from the parent's state, ready and under its own identity. */
  predicate ContinuesLine(parent: Core, c: Core, h: Hash, now: Timestamp) {
    && c.parent == Some(parent.id) && c.lineage == parent.lineage + [c.id] && c.generation == parent.generation + 1
    && c.genesis == Forked(now, parent.id, h, parent.genesis.genome) && c.base == Some(h)
    && c.genome == parent.genome && c.tick == parent.tick && c.instructions == parent.instructions
    && c.lastReceipt == parent.lastReceipt && c.properties == parent.properties.(state := READY)
    && c.status == READY && !c.suspended && !c.retired
  }

  /** The child's ledger starts with its birth; the parent's has its snapshot and the fork more. */
  ghost predicate BothTold(d: Disk, later: Disk, id: ElectronId, child: ElectronId, h: Hash, now: Timestamp)
    requires id in d.states
  {
    var tick, n := d.states[id].core.tick, |Events(d, id)|;
    && |Events(later, child)| == 1 && Tells(Events(later, child)[0], tick, now, CLONE_GENESIS, OfClone(id, h))
    && |Events(later, id)| == n + 2 && Tells(Events(later, id)[n], tick, now, SNAPSHOT, OfSnapshot(h))
    && Tells(Events(later, id)[n + 1], tick, now, FORK, OfFork(child, h))
  }

  ghost predicate ForkGives(d: Disk, cfg: Config, id: ElectronId, child: ElectronId, now: Timestamp, o: Outcome) {
    && Good(o.disk) && Kept(d, o.disk) && o.refused == ForkObjection(d, cfg, id, child)
    && (o.refused.Some? && o.refused != Some(NoFreshId) ==> o.disk == d)
    && (o.refused == None ==>
          && id in o.disk.states && child in o.disk.states && PointsAtItself(d, o.disk, id)
          && var h := o.disk.states[id].core.base.value;
             && ContinuesLine(d.states[id].core, o.disk.states[child].core, h, now)
             && BothTold(d, o.disk, id, child, h, now) && o.disk.receipts == d.receipts)
  }

  lemma ForkRefuses(d: Disk, cfg: Config, id: ElectronId, child: ElectronId, now: Timestamp)
    requires Good(d) && ForkObjection(d, cfg, id, child) != None && ForkObjection(d, cfg, id, child) != Some(NoFreshId)
    ensures Fork(d, cfg, id, child, now).disk == d
  {
    if id in d.states {
      LoadsWhole(d, id);
    }
  }

  lemma ForkBears(d: Disk, cfg: Config, id: ElectronId, child: ElectronId, now: Timestamp)
    requires Good(d) && ForkObjection(d, cfg, id, child) == None
    ensures var o := Fork(d, cfg, id, child, now);
            && id in o.disk.states && child in o.disk.states
            && o.disk.states[id].core == Pointed(d, id).(integrity := o.disk.states[id].core.integrity)
            && o.disk.states[child].core == Child(d, id, child, now).(integrity := o.disk.states[child].core.integrity)
            && o.disk.snapshots == WithSnapshot(d, id).snapshots && o.disk.receipts == d.receipts
  {
    SnapshotIsCommit(d, id, now);
    SnapshotKeepsOthers(d, id, now, child);
    ForkIsCommits(d, cfg, id, child, now);
    ChildIsShaped(d, id, child, now);
  }

  lemma ForkContinues(d: Disk, cfg: Config, id: ElectronId, child: ElectronId, now: Timestamp)
    requires Good(d) && ForkObjection(d, cfg, id, child) == None
    ensures var later := Fork(d, cfg, id, child, now).disk;
            && id in later.states && child in later.states && PointsAtItself(d, later, id)
            && later.states[id].core.base == Some(Frozen(d, id).hash) && later.receipts == d.receipts
            && ContinuesLine(d.states[id].core, later.states[child].core, Frozen(d, id).hash, now)
  {
    ForkBears(d, cfg, id, child, now);
    LoadsWhole(d, id);
    SnapshotIsWellFormed(d, id);
    var written, later := WithSnapshot(d, id), Fork(d, cfg, id, child, now).disk;
    assert LoadSnapshot(later, Frozen(d, id).hash) == LoadSnapshot(written, Frozen(d, id).hash);
    ChildContinues(d, id, child, now);
  }

  lemma ChildContinues(d: Disk, id: ElectronId, child: ElectronId, now: Timestamp)
    requires id in d.states && d.states[id].core.id == id && Operable(d.states[id].core)
    ensures forall a :: ContinuesLine(d.states[id].core, Child(d, id, child, now).(integrity := a), Frozen(d, id).hash,
            now)
  {
  }

  lemma ForkTells(d: Disk, cfg: Config, id: ElectronId, child: ElectronId, now: Timestamp)
    requires Good(d) && ForkObjection(d, cfg, id, child) == None
    ensures BothTold(d, Fork(d, cfg, id, child, now).disk, id, child, Frozen(d, id).hash, now)
  {
    var c, h, tick := Child(d, id, child, now), Frozen(d, id).hash, d.states[id].core.tick;
    SnapshotPoints(d, id, now);
    SnapshotIsCommit(d, id, now);
    ForkIsCommits(d, cfg, id, child, now);
    ChildIsShaped(d, id, child, now);
    var first, born := TakeSnapshot(d, id, now).disk, Born(d, id, child, now);
    CommitTells(first, c, c.tick, now, CLONE_GENESIS, OfClone(id, h));
    CommitTells(born, born.states[id].core, tick, now, FORK, OfFork(child, h));
    assert Events(born, id) == Events(first, id);
    ToldTwice(d, first, born, Fork(d, cfg, id, child, now).disk, id, child, h, now);
  }

  lemma ToldTwice(d: Disk, first: Disk, born: Disk, later: Disk, id: ElectronId, child: ElectronId, h: Hash,
                  now: Timestamp)
    requires id in d.states && id != child && Events(first, child) == [] && Events(born, id) == Events(first, id)
    requires Told(d, first, id, d.states[id].core.tick, now, SNAPSHOT, OfSnapshot(h))
    requires Told(first, born, child, d.states[id].core.tick, now, CLONE_GENESIS, OfClone(id, h))
    requires Told(born, later, id, d.states[id].core.tick, now, FORK, OfFork(child, h)) && child in born.states
    ensures BothTold(d, later, id, child, h, now)
  {
    var n := |Events(d, id)|;
    assert Events(later, id)[n] == Events(later, id)[..n + 1][n];
    assert Events(later, child) == Events(born, child);
  }

  lemma ForkEffect(d: Disk, cfg: Config, id: ElectronId, child: ElectronId, now: Timestamp)
    requires Good(d)
    ensures ForkGives(d, cfg, id, child, now, Fork(d, cfg, id, child, now))
  {
    ForkIsGood(d, cfg, id, child, now);
    if ForkObjection(d, cfg, id, child) == None {
      ForkContinues(d, cfg, id, child, now);
      ForkTells(d, cfg, id, child, now);
    } else if ForkObjection(d, cfg, id, child) != Some(NoFreshId) {
      ForkRefuses(d, cfg, id, child, now);
    }
  }

  /** What a restore takes from the snapshot and what it leaves as it was. */
  ghost predicate RollsBack(snap: Core, c: Core, c': Core, h: Hash) {
    && SameIdentity(c, c') && c'.suspended == c.suspended && !c'.retired && c'.base == Some(h)
    && c'.genome == snap.genome && c'.tick == snap.tick && c'.instructions == snap.instructions
    && c'.lastReceipt == snap.lastReceipt && c'.properties == snap.properties.(state := c'.status)
    && c'.status == if c.suspended then SUSPENDED else READY
  }

  ghost predicate WentBack(d: Disk, later: Disk, id: ElectronId, h: Hash, now: Timestamp) {
    && id in d.states && id in later.states && h in d.snapshots
    && RollsBack(d.snapshots[h].state.core, d.states[id].core, later.states[id].core, h)
    && Told(d, later, id, d.snapshots[h].state.core.tick, now, RESTORE, OfRestore(h, false))
    && later.receipts == d.receipts && later.snapshots == d.snapshots
  }

  ghost predicate RestoreGives(d: Disk, id: ElectronId, h: Hash, now: Timestamp, o: Outcome) {
    Safe(d, o, RestoreObjection(d, id, h)) && (o.refused == None ==> WentBack(d, o.disk, id, h, now))
  }

  lemma RestoreRollsBack(d: Disk, id: ElectronId, h: Hash, now: Timestamp)
    requires Good(d) && RestoreObjection(d, id, h) == None
    ensures WentBack(d, Restore(d, id, h, now).disk, id, h, now)
  {
    RestoreIsCommit(d, id, h, now);
    var c := RestoredCore(d, id, h);
    CommitTells(d, c, c.tick, now, RESTORE, OfRestore(h, false));
  }

  lemma RestoreEffect(d: Disk, id: ElectronId, h: Hash, now: Timestamp)
    requires Good(d)
    ensures RestoreGives(d, id, h, now, Restore(d, id, h, now))
  {
    RestoreIsGood(d, id, h, now);
    if RestoreObjection(d, id, h) == None {
      RestoreRollsBack(d, id, h, now);
    }
  }

  /** Restoring is the way back from a state file edited from outside. If the edit left the electron's identity and did
      not hide that it was retired, restoring a snapshot of its line makes the store consistent again, as if the file
      had never been edited but for the suspension it now claims; the event says whether the file was unsealed. */
  lemma RestoreRecovers(d: Disk, id: ElectronId, forged: StateFile, h: Hash, now: Timestamp)
    requires Good(d) && RestoreObjection(d, id, h) == None
    requires SameIdentity(forged.core, d.states[id].core) && !forged.core.retired
    ensures var o := Restore(d.(states := d.states[id := forged]), id, h, now);
            && o.refused == None && Good(o.disk) && Kept(d, o.disk) && id in o.disk.states
            && RollsBack(d.snapshots[h].state.core, forged.core, o.disk.states[id].core, h)
            && Told(d, o.disk, id, d.snapshots[h].state.core.tick, now, RESTORE, OfRestore(h, !CheckState(forged)))
  {
    assert ElectronOk(d, id);
    SnapshotsAreAuthorized(d, h, d.states[id].core.lineage);
    var edited := d.(states := d.states[id := forged]);
    var snap := d.snapshots[h].state.core;
    var c, payload := Restored(snap, forged.core, h), OfRestore(h, !CheckState(forged));
    assert LoadSnapshot(edited, h) == LoadSnapshot(d, h);
    assert Authorization(edited, forged.core.lineage, h, snap.id) == Authorization(d, forged.core.lineage, h, snap.id);
    RecoveryIsCommittable(d, id, forged, h, payload);
    assert Events(edited, id) == Events(d, id);
    SaveEventIsCommit(edited, c, c.tick, now, RESTORE, payload);
    CommitOverwrites(d, forged, c, c.tick, now, RESTORE, payload);
    CommitsToGood(d, d, c, c.tick, now, RESTORE, payload);
    CommitTells(d, c, c.tick, now, RESTORE, payload);
  }

  lemma RecoveryIsCommittable(d: Disk, id: ElectronId, forged: StateFile, h: Hash, payload: Payload)
    requires Good(d) && RestoreObjection(d, id, h) == None && payload.OfRestore?
    requires SameIdentity(forged.core, d.states[id].core) && !forged.core.retired
    ensures var c := Restored(d.snapshots[h].state.core, forged.core, h);
            c.id == id && ShapeOk(c) && Committable(d, d, c, RESTORE, payload)
  {
    assert ElectronOk(d, id);
    SnapshotsAreAuthorized(d, h, d.states[id].core.lineage);
  }

  /** The flag and the status follow each other, and nothing else of the electron changes. */
  ghost predicate Switched(c: Core, c': Core, value: bool) {
    && c'.suspended == value && c'.status == (if value then SUSPENDED else READY)
    && c' == c.(suspended := c'.suspended, status := c'.status, properties := c.properties.(state := c'.status),
                integrity := c'.integrity)
  }

  ghost predicate Toggled(d: Disk, later: Disk, id: ElectronId, value: bool, now: Timestamp) {
    && id in d.states && id in later.states && Switched(d.states[id].core, later.states[id].core, value)
    && Told(d, later, id, d.states[id].core.tick, now, if value then SUSPEND else RESUME, Nothing)
    && later.receipts == d.receipts && later.snapshots == d.snapshots
  }

  ghost predicate SuspendGives(d: Disk, id: ElectronId, value: bool, now: Timestamp, o: Outcome) {
    Safe(d, o, SuspendObjection(d, id, value)) && (o.refused == None ==> Toggled(d, o.disk, id, value, now))
  }

  lemma SuspendSwitches(d: Disk, id: ElectronId, value: bool, now: Timestamp)
    requires Good(d) && SuspendObjection(d, id, value) == None
    ensures Toggled(d, SetSuspended(d, id, value, now).disk, id, value, now)
  {
    SuspendIsCommit(d, id, value, now);
    var c := SuspendedCore(d.states[id].core, value);
    CommitTells(d, c, c.tick, now, if value then SUSPEND else RESUME, Nothing);
  }

  lemma SuspendEffect(d: Disk, id: ElectronId, value: bool, now: Timestamp)
    requires Good(d)
    ensures SuspendGives(d, id, value, now, SetSuspended(d, id, value, now))
  {
    SuspendIsGood(d, id, value, now);
    if SuspendObjection(d, id, value) == None {
      SuspendSwitches(d, id, value, now);
    }
  }

  /** It is retired, and nothing else of the electron changes. */
  predicate Retires(c: Core, c': Core) {
    c' == c.(retired := true, status := RETIRED, properties := c.properties.(state := RETIRED), integrity :=
      c'.integrity)
  }

  ghost predicate Ended(d: Disk, later: Disk, id: ElectronId, now: Timestamp) {
    && id in d.states && id in later.states && Retires(d.states[id].core, later.states[id].core)
    && Told(d, later, id, d.states[id].core.tick, now, Kind.RETIRE, Nothing)
    && later.receipts == d.receipts && later.snapshots == d.snapshots
  }

  ghost predicate RetireGives(d: Disk, id: ElectronId, now: Timestamp, o: Outcome) {
    Safe(d, o, RetireObjection(d, id)) && (o.refused == None ==> Ended(d, o.disk, id, now))
  }

  lemma RetireEnds(d: Disk, id: ElectronId, now: Timestamp)
    requires Good(d) && RetireObjection(d, id) == None
    ensures Ended(d, Retire(d, id, now).disk, id, now)
  {
    RetireIsCommit(d, id, now);
    var c := RetiredCore(d.states[id].core);
    CommitTells(d, c, c.tick, now, Kind.RETIRE, Nothing);
  }

  lemma RetireEffect(d: Disk, id: ElectronId, now: Timestamp)
    requires Good(d)
    ensures RetireGives(d, id, now, Retire(d, id, now))
  {
    RetireIsGood(d, id, now);
    if RetireObjection(d, id) == None {
      RetireEnds(d, id, now);
    }
  }

  // ----- Executions -----

  /** What the last event of an execution says: rejected by verdict, host or nodes, by its replay, or by an error in
      recording it; or verified. */
  function LastKind(cfg: Config, e: Execution): Kind {
    if !e.agreed || cfg.unbound || ((e.strict || cfg.strictNodes) && !e.fourNodes) then EXECUTION_REJECTED
    else if !e.replayOk then REPLAY_REJECTED
    else if e.crash != NoCrash then EXECUTION_ERROR
    else EXECUTION_VERIFIED
  }

  /** The reason recorded with it. */
  function Reason(cfg: Config, e: Execution): string {
    if !e.agreed then "verdict" else if cfg.unbound then "host_bridge_unbound"
    else if (e.strict || cfg.strictNodes) && !e.fourNodes then "unbound_required_node"
    else if !e.replayOk then "replay" else "error"
  }

  /** The receipt is filed once the checks are passed, also where recording fails after that. */
  predicate FilesReceipt(cfg: Config, e: Execution) {
    && e.agreed && !cfg.unbound && (e.strict || cfg.strictNodes ==> e.fourNodes) && e.replayOk
    && e.crash != BeforeReceipt
  }

  function TheReceipt(id: ElectronId, tick: nat, e: Execution): Receipt {
    Receipt(id, tick, e.eventLog, e.detail)
  }

  /** What stays through an execution: identity, genome, base snapshot and flags. */
  predicate StaysItself(c: Core, c': Core) {
    && c'.id == c.id && c'.generation == c.generation && c'.parent == c.parent && c'.lineage == c.lineage
    && c'.genesis == c.genesis && c'.genome == c.genome && c'.base == c.base
    && c'.suspended == c.suspended && c'.retired == c.retired
  }

  /** Verified: the rows are counted, the receipt is the last one, phase and spin are flipped, the nodes are those of
      the result; faulted: nothing of that. */
  predicate Closed(c: Core, c': Core, id: ElectronId, e: Execution, verified: bool) {
    if verified then
      && c'.status == VERIFIED && c'.instructions == c.instructions + e.rows
      && c'.lastReceipt == Some(ReceiptPath(id, c'.tick))
      && c'.properties == Properties(VERIFIED, "DF0_FABRIC", e.nodes, (c.properties.phase + 1) % 2,
         !c.properties.spinUp)
    else
      && c'.status == FAULTED && c'.instructions == c.instructions && c'.lastReceipt == c.lastReceipt
      && c'.properties == c.properties.(state := FAULTED)
  }

  /** The event that closes an execution: of its kind, at its tick, and for a verified one about its receipt. */
  predicate ClosingEvent(r: Record, id: ElectronId, tick: nat, now: Timestamp, cfg: Config, e: Execution) {
    && r.Record? && r.kind == LastKind(cfg, e) && r.tick == tick && r.utc == now
    && if r.kind == EXECUTION_VERIFIED then
         r.payload == OfReceipt(ReceiptPath(id, tick), Digest(ReceiptContent(TheReceipt(id, tick, e))), e.eventLog)
       else r.payload == OfRejection(Reason(cfg, e))
  }

  ghost predicate Executed(d: Disk, cfg: Config, id: ElectronId, e: Execution, now: Timestamp, later: Disk)
    requires id in d.states
  {
    && id in later.states && OthersSame(d, later, id) && later.snapshots == d.snapshots
    && var c, c', n := d.states[id].core, later.states[id].core, |Events(d, id)|;
       && c'.tick == c.tick + 1 && StaysItself(c, c')
       && Closed(c, c', id, e, LastKind(cfg, e) == EXECUTION_VERIFIED)
       && |Events(later, id)| == n + 1 && Events(later, id)[..n] == Events(d, id)
       && ClosingEvent(Events(later, id)[n], id, c'.tick, now, cfg, e)
       && later.receipts ==
          (if FilesReceipt(cfg, e) then d.receipts[ReceiptPath(id, c'.tick) := TheReceipt(id, c'.tick, e)]
            else d.receipts)
  }

  /** A call is refused before it starts for an unknown electron, for one that is retired, suspended, faulted or
      blocked, and at the quota; once started it is refused exactly unless the nodes agreed, the host is bound, four
      nodes took part where they must, the replay checked out and recording did not fail. */
  ghost predicate ExecuteGives(d: Disk, cfg: Config, id: ElectronId, e: Execution, now: Timestamp, o: Outcome) {
    && Good(o.disk) && Kept(d, o.disk)
    && if id !in d.states then o == Refuse(d, UnknownElectron)
       else if d.states[id].core.retired || d.states[id].core.suspended
         || d.states[id].core.status in {FAULTED, BLOCKED} then
         o == Refuse(d, NotOperable)
       else if cfg.maxReceipts > 0 && |set p | p in d.receipts && p.electron == id| >= cfg.maxReceipts then
         o == Refuse(d, Quota)
       else
         && (o.refused == None <==>
               && e.agreed && !cfg.unbound && (e.strict || cfg.strictNodes ==> e.fourNodes) && e.replayOk
               && e.crash == NoCrash)
         && (o.refused.Some? ==> o.refused == Some(ExecutionRefused))
         && Executed(d, cfg, id, e, now, o.disk)
  }

  lemma EndingIs(d: Disk, cfg: Config, id: ElectronId, e: Execution)
    requires Good(d) && Started(d, cfg, id)
    ensures var c, end := d.states[id].core, Ending(d, cfg, id, e);
            && end.core.id == id && end.core.tick == c.tick + 1 && StaysItself(c, end.core)
            && Closed(c, end.core, id, e, LastKind(cfg, e) == EXECUTION_VERIFIED)
            && end.kind == LastKind(cfg, e)
            && if end.kind == EXECUTION_VERIFIED then
                 end.payload == OfReceipt(ReceiptPath(id, c.tick + 1),
                   Digest(ReceiptContent(TheReceipt(id, c.tick + 1, e))), e.eventLog)
               else end.payload == OfRejection(Reason(cfg, e))
  {
    RunningIsShaped(d, cfg, id);
  }

  lemma FiledIs(d: Disk, cfg: Config, id: ElectronId, e: Execution)
    requires Good(d) && Started(d, cfg, id)
    ensures var tick, filed := d.states[id].core.tick + 1, AtCommit(d, cfg, id, e);
            && filed.states == d.states && filed.ledgers == d.ledgers && filed.snapshots == d.snapshots
            && filed.receipts == if FilesReceipt(cfg, e)
               then d.receipts[ReceiptPath(id, tick) := TheReceipt(id, tick, e)] else d.receipts
  {
    RunningIsShaped(d, cfg, id);
  }

  lemma EndingIsExecuted(d: Disk, cfg: Config, id: ElectronId, e: Execution, now: Timestamp)
    requires Good(d) && Started(d, cfg, id)
    ensures var end, filed := Ending(d, cfg, id, e), AtCommit(d, cfg, id, e);
            && end.core.id == id && Head(Events(filed, id)).Some?
            && Executed(d, cfg, id, e, now, Commit(filed, end.core, end.core.tick, now, end.kind, end.payload))
  {
    EndingIs(d, cfg, id, e);
    FiledIs(d, cfg, id, e);
    LoadsWhole(d, id);
    var end, filed := Ending(d, cfg, id, e), AtCommit(d, cfg, id, e);
    assert Events(filed, id) == Events(d, id);
    CommitTells(filed, end.core, end.core.tick, now, end.kind, end.payload);
    var later := Commit(filed, end.core, end.core.tick, now, end.kind, end.payload);
    forall other | other in d.states && other != id
      ensures Events(later, other) == Events(d, other)
    {
      assert Events(filed, other) == Events(d, other);
    }
  }

  lemma AcceptedIs(cfg: Config, e: Execution)
    ensures Accepted(cfg, e) <==>
            && e.agreed && !cfg.unbound && (e.strict || cfg.strictNodes ==> e.fourNodes) && e.replayOk
            && e.crash == NoCrash
  {
  }

  lemma ExecuteEffect(d: Disk, cfg: Config, id: ElectronId, e: Execution, now: Timestamp)
    requires Good(d)
    ensures ExecuteGives(d, cfg, id, e, now, RecordExecution(d, cfg, id, e, now))
  {
    RecordIsGood(d, cfg, id, e, now);
    AcceptedIs(cfg, e);
    if Started(d, cfg, id) {
      RecordIsCommit(d, cfg, id, e, now);
      EndingIsExecuted(d, cfg, id, e, now);
    }
  }
}
