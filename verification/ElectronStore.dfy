/** The electron store as an object that rewrites what it keeps on disk, one load, save, ledger append or snapshot
    write at a time. Each call does to the disk exactly what the store model says, whatever state it finds there; on
    a consistent store it also keeps the store consistent and gives its caller what StoreEffects says. */
module ElectronStore {
  import opened Common
  import opened Records
  import opened Ledger
  import opened StoreModel
  import opened StoreInvariants
  import opened StoreEffects

  class ElectronStore {
    const config: Config
    var states: map<ElectronId, StateFile>
    var ledgers: map<ElectronId, seq<Record>>
    var snapshots: map<Hash, Snapshot>
    var receipts: map<ReceiptPath, Receipt>

    constructor (config: Config)
      ensures this.config == config && Contents() == EMPTY && Valid()
    {
      this.config := config;
      states, ledgers, snapshots, receipts := map[], map[], map[], map[];
    }

    /** Seals, chains, anchors, lineages and snapshots agree. Files edited from outside can break this; then loads
        are refused and a restore is the way back. */
    ghost predicate Valid()
      reads this
    {
      Good(Contents())
    }

    function Contents(): Disk
      reads this
    {
      Disk(states, ledgers, snapshots, receipts)
    }

    method LoadState(id: ElectronId) returns (r: Result<Core, Refusal>)
      ensures r == Load(Contents(), id)
    {
      if id !in states {
        return Refused(UnknownElectron);
      }
      var file := states[id];
      if file.core.id != id || !CheckState(file) {
        return Refused(Tampered);
      }
      return Ok(file.core);
    }

    method SaveState(c: Core) returns (refused: Option<Refusal>)
      modifies this`states
      ensures Outcome(Contents(), refused) == Save(old(Contents()), c)
    {
      if !ShapeOk(c) {
        return Some(BadShape);
      }
      states := states[c.id := Seal(c)];
      return None;
    }

    method AppendToLedger(id: ElectronId, tick: nat, now: Timestamp, kind: Kind, payload: Payload)
      returns (refused: Option<Refusal>)
      modifies this`ledgers
      ensures Outcome(Contents(), refused) == Append(old(Contents()), id, tick, now, kind, payload)
    {
      var events := if id in ledgers then ledgers[id] else [];
      match ChainVerdict(events) {
        case Failed(_, why) => return Some(BadLedger(why));
        case Verified(_, _, _) =>
          ledgers := ledgers[id := events + [NextRecord(events, tick, now, kind, payload)]];
          return None;
      }
    }

    method SealAnchor(id: ElectronId) returns (refused: Option<Refusal>)
      modifies this`states
      ensures Outcome(Contents(), refused) == Anchored(old(Contents()), id)
    {
      var loaded := LoadState(id);
      if loaded.Refused? {
        return Some(loaded.reason);
      }
      var events := if id in ledgers then ledgers[id] else [];
      refused := SaveState(loaded.value.(integrity := Some(Anchor(|events|, LastHash(events)))));
    }

    method RecordEvent(id: ElectronId, tick: nat, now: Timestamp, kind: Kind, payload: Payload)
      returns (refused: Option<Refusal>)
      modifies this`ledgers, this`states
      ensures Outcome(Contents(), refused) == Event(old(Contents()), id, tick, now, kind, payload)
    {
      refused := AppendToLedger(id, tick, now, kind, payload);
      if refused.Some? {
        return;
      }
      refused := SealAnchor(id);
    }

    method CreateElectron(id: ElectronId, genome: Genome, now: Timestamp) returns (refused: Option<Refusal>)
      modifies this
      ensures Outcome(Contents(), refused) == Create(old(Contents()), config, id, genome, now)
      ensures old(Valid()) && id !in old(states) ==>
                Valid() && CreateGives(old(Contents()), config, id, genome, now, Outcome(Contents(), refused))
    {
      if Valid() && id !in states {
        CreateEffect(Contents(), config, id, genome, now);
      }
      if |states| >= config.maxElectrons {
        return Some(Quota);
      }
      var c := NewCore(id, genome, now);
      refused := SaveState(c);
      if refused.Some? {
        return;
      }
      refused := RecordEvent(id, 0, now, GENESIS, OfGenesis(Digest(GenomeContent(genome)), Seal(c).seal));
    }

    method ReadSnapshot(h: Hash) returns (r: Result<Snapshot, Refusal>)
      ensures r == LoadSnapshot(Contents(), h)
    {
      if h !in snapshots {
        return Refused(UnknownSnapshot);
      }
      var s := snapshots[h];
      if s.hash != h || Digest(SealedContent(s.state)) != h {
        return Refused(BadSnapshot);
      }
      if s.id != s.state.core.id || s.generation != s.state.core.generation || !CheckState(s.state) {
        return Refused(BadSnapshot);
      }
      return Ok(s);
    }

    /** Write the snapshot unless it is there; if it is, it must read back as this electron's. */
    method WriteSnapshot(snap: Snapshot) returns (clash: bool)
      modifies this`snapshots
      ensures clash <==> Clashes(old(Contents()), snap)
      ensures snapshots == if snap.hash in old(snapshots) then old(snapshots) else old(snapshots)[snap.hash := snap]
    {
      if snap.hash !in snapshots {
        snapshots := snapshots[snap.hash := snap];
        return false;
      }
      var prior := ReadSnapshot(snap.hash);
      return prior.Refused? || prior.value.id != snap.id;
    }

    method Snap(id: ElectronId, now: Timestamp) returns (refused: Option<Refusal>)
      modifies this
      ensures Outcome(Contents(), refused) == TakeSnapshot(old(Contents()), id, now)
    {
      var loaded := LoadState(id);
      if loaded.Refused? {
        return Some(loaded.reason);
      }
      var c := loaded.value;
      var frozen := WithStatus(c, FROZEN);
      refused := SaveState(frozen);
      if refused.Some? {
        return;
      }
      var snap := SnapshotOf(frozen);
      var clash := WriteSnapshot(snap);
      if clash {
        return Some(BadSnapshot);
      }
      refused := RecordEvent(id, c.tick, now, SNAPSHOT, OfSnapshot(snap.hash));
      if refused.Some? {
        return;
      }
      loaded := LoadState(id);
      if loaded.Refused? {
        return Some(loaded.reason);
      }
      refused := SaveState(WithStatus(loaded.value.(base := Some(snap.hash)), Thawed(c.status)));
    }

    method SnapshotElectron(id: ElectronId, now: Timestamp) returns (refused: Option<Refusal>)
      modifies this
      ensures Outcome(Contents(), refused) == TakeSnapshot(old(Contents()), id, now)
      ensures old(Valid()) ==> Valid() && SnapshotGives(old(Contents()), id, now, Outcome(Contents(), refused))
    {
      if Valid() {
        SnapshotEffect(Contents(), id, now);
      }
      refused := Snap(id, now);
    }

    method ForkElectron(id: ElectronId, child: ElectronId, now: Timestamp) returns (refused: Option<Refusal>)
      modifies this
      ensures Outcome(Contents(), refused) == Fork(old(Contents()), config, id, child, now)
      ensures old(Valid()) ==> Valid() && ForkGives(old(Contents()), config, id, child, now,
              Outcome(Contents(), refused))
    {
      if Valid() {
        ForkEffect(Contents(), config, id, child, now);
      }
      var loaded := LoadState(id);
      if loaded.Refused? {
        return Some(loaded.reason);
      }
      var parent := loaded.value;
      if !Operable(parent) {
        return Some(NotOperable);
      }
      if |states| >= config.maxElectrons {
        return Some(Quota);
      }
      refused := Snap(id, now);
      if refused.Some? {
        return;
      }
      if child in states {
        return Some(NoFreshId);
      }
      var frozen := WithStatus(parent, FROZEN);
      var h := SnapshotOf(frozen).hash;
      var c := ChildOf(parent, frozen, child, h, now);
      refused := SaveState(c);
      if refused.Some? {
        return;
      }
      refused := RecordEvent(child, c.tick, now, CLONE_GENESIS, OfClone(id, h));
      if refused.Some? {
        return;
      }
      refused := RecordEvent(id, parent.tick, now, FORK, OfFork(child, h));
    }

    /** Look for the snapshot in the ledger of its source, which must be in the lineage. */
    method Authorize(lineage: seq<ElectronId>, h: Hash, source: ElectronId) returns (refused: Option<Refusal>)
      ensures refused == Authorization(Contents(), lineage, h, source)
    {
      if source !in lineage {
        return Some(NotAncestor);
      }
      var events := if source in ledgers then ledgers[source] else [];
      if ChainVerdict(events).Failed? {
        return Some(Unauthorized);
      }
      for i := 0 to |events|
        invariant forall k :: 0 <= k < i ==> !RecordsSnapshot(events[k], h)
      {
        if RecordsSnapshot(events[i], h) {
          return None;
        }
      }
      return Some(Unauthorized);
    }

    method RestoreElectron(id: ElectronId, h: Hash, now: Timestamp) returns (refused: Option<Refusal>)
      modifies this
      ensures Outcome(Contents(), refused) == Restore(old(Contents()), id, h, now)
      ensures old(Valid()) ==> Valid() && RestoreGives(old(Contents()), id, h, now, Outcome(Contents(), refused))
    {
      if Valid() {
        RestoreEffect(Contents(), id, h, now);
      }
      var read := ReadSnapshot(h);
      if read.Refused? {
        return Some(read.reason);
      }
      var snap := read.value.state.core;
      if id !in states {
        return Some(UnknownElectron);
      }
      if states[id].core.id != id {
        return Some(Tampered);
      }
      var tampered := !CheckState(states[id]);
      var current := states[id].core;
      if current.retired {
        return Some(IsRetired);
      }
      refused := Authorize(current.lineage, h, snap.id);
      if refused.Some? {
        return;
      }
      var c := Restored(snap, current, h);
      refused := SaveState(c);
      if refused.Some? {
        return;
      }
      refused := RecordEvent(id, c.tick, now, RESTORE, OfRestore(h, tampered));
    }

    method Suspend(id: ElectronId, value: bool, now: Timestamp) returns (refused: Option<Refusal>)
      modifies this
      ensures Outcome(Contents(), refused) == SetSuspended(old(Contents()), id, value, now)
      ensures old(Valid()) ==> Valid() && SuspendGives(old(Contents()), id, value, now, Outcome(Contents(), refused))
    {
      if Valid() {
        SuspendEffect(Contents(), id, value, now);
      }
      var loaded := LoadState(id);
      if loaded.Refused? {
        return Some(loaded.reason);
      }
      var c := loaded.value;
      if c.retired {
        return Some(IsRetired);
      }
      if c.suspended == value {
        return Some(AlreadySo);
      }
      refused := SaveState(WithStatus(c.(suspended := value), if value then SUSPENDED else READY));
      if refused.Some? {
        return;
      }
      refused := RecordEvent(id, c.tick, now, if value then SUSPEND else RESUME, Nothing);
    }

    method RetireElectron(id: ElectronId, now: Timestamp) returns (refused: Option<Refusal>)
      modifies this
      ensures Outcome(Contents(), refused) == Retire(old(Contents()), id, now)
      ensures old(Valid()) ==> Valid() && RetireGives(old(Contents()), id, now, Outcome(Contents(), refused))
    {
      if Valid() {
        RetireEffect(Contents(), id, now);
      }
      var loaded := LoadState(id);
      if loaded.Refused? {
        return Some(loaded.reason);
      }
      var c := loaded.value;
      if c.retired {
        return Some(IsRetired);
      }
      refused := SaveState(WithStatus(c.(retired := true), RETIRED));
      if refused.Some? {
        return;
      }
      refused := RecordEvent(id, c.tick, now, Kind.RETIRE, Nothing);
    }

    method Fault(id: ElectronId, tick: nat, now: Timestamp, kind: Kind, reason: string)
      returns (refused: Option<Refusal>)
      modifies this
      ensures Outcome(Contents(), refused) == FaultWith(old(Contents()), id, tick, now, kind, reason)
    {
      var loaded := LoadState(id);
      if loaded.Refused? {
        return Some(loaded.reason);
      }
      refused := SaveState(WithStatus(loaded.value, FAULTED));
      if refused.Some? {
        return;
      }
      refused := RecordEvent(id, tick, now, kind, OfRejection(reason));
      if refused == None {
        refused := Some(ExecutionRefused);
      }
    }

    method Accept(id: ElectronId, tick: nat, e: Execution, now: Timestamp) returns (refused: Option<Refusal>)
      modifies this
      ensures Outcome(Contents(), refused) == Complete(old(Contents()), id, tick, e, now)
    {
      var path := ReceiptPath(id, tick);
      receipts := receipts[path := Receipt(id, tick, e.eventLog, e.detail)];
      if e.crash == AfterReceipt {
        refused := Fault(id, tick, now, EXECUTION_ERROR, "error");
        return;
      }
      var loaded := LoadState(id);
      if loaded.Refused? {
        return Some(loaded.reason);
      }
      refused := SaveState(Advanced(loaded.value, path, e));
      if refused.Some? {
        return;
      }
      refused := RecordEvent(id, tick, now, EXECUTION_VERIFIED,
        OfReceipt(path, Digest(ReceiptContent(receipts[path])), e.eventLog));
    }

    /** The checks a result must pass before its receipt is written, in order. */
    method Judge(id: ElectronId, tick: nat, e: Execution, now: Timestamp) returns (refused: Option<Refusal>)
      modifies this
      ensures Outcome(Contents(), refused) == Judged(old(Contents()), config, id, tick, e, now)
    {
      if !e.agreed {
        refused := Fault(id, tick, now, EXECUTION_REJECTED, "verdict");
      } else if config.unbound {
        refused := Fault(id, tick, now, EXECUTION_REJECTED, "host_bridge_unbound");
      } else if (e.strict || config.strictNodes) && !e.fourNodes {
        refused := Fault(id, tick, now, EXECUTION_REJECTED, "unbound_required_node");
      } else if !e.replayOk {
        refused := Fault(id, tick, now, REPLAY_REJECTED, "replay");
      } else if e.crash == BeforeReceipt {
        refused := Fault(id, tick, now, EXECUTION_ERROR, "error");
      } else {
        refused := Accept(id, tick, e, now);
      }
    }

    method Execute(id: ElectronId, e: Execution, now: Timestamp) returns (refused: Option<Refusal>)
      modifies this
      ensures Outcome(Contents(), refused) == RecordExecution(old(Contents()), config, id, e, now)
      ensures old(Valid()) ==> Valid() && ExecuteGives(old(Contents()), config, id, e, now,
              Outcome(Contents(), refused))
    {
      if Valid() {
        ExecuteEffect(Contents(), config, id, e, now);
      }
      refused := Record(id, e, now);
    }

    method Record(id: ElectronId, e: Execution, now: Timestamp) returns (refused: Option<Refusal>)
      modifies this
      ensures Outcome(Contents(), refused) == RecordExecution(old(Contents()), config, id, e, now)
    {
      var loaded := LoadState(id);
      if loaded.Refused? {
        return Some(loaded.reason);
      }
      var c := loaded.value;
      if !Operable(c) {
        return Some(NotOperable);
      }
      if AtQuota(Contents(), config, id) {
        return Some(Quota);
      }
      refused := Run(id, c, e, now);
    }

    method Run(id: ElectronId, c: Core, e: Execution, now: Timestamp) returns (refused: Option<Refusal>)
      modifies this
      ensures Outcome(Contents(), refused) == Attempt(old(Contents()), config, id, c, e, now)
    {
      refused := SaveState(WithStatus(c.(tick := c.tick + 1), RUNNING));
      if refused.Some? {
        return;
      }
      refused := Judge(id, c.tick + 1, e, now);
    }

    /** Whether the electron's state seal, ledger, anchor and base snapshot check out; in a consistent store every
        electron's do. */
    method AuditElectron(id: ElectronId) returns (ok: bool)
      requires id in states
      ensures ok <==>
              var d := Contents();
              StateAudit(d, id) && LedgerAudit(d, id) && AnchorAudit(d, id) && BaseAudit(d, id)
      ensures Valid() ==> ok
    {
      if Valid() {
        GoodPassesAudit(Contents(), id);
      }
      var file := states[id];
      ok := file.core.id == id && CheckState(file);
      var events := if id in ledgers then ledgers[id] else [];
      match ChainVerdict(events) {
        case Failed(_, _) => return false;
        case Verified(n, head, _) =>
          ok := && ok && events != [] && events[0].Record? && events[0].kind in {GENESIS, CLONE_GENESIS}
                && file.core.integrity == Some(Anchor(n, head));
      }
      if file.core.base.Some? {
        var read := ReadSnapshot(file.core.base.value);
        if read.Refused? {
          return false;
        }
        var why := Authorize(file.core.lineage, file.core.base.value, read.value.state.core.id);
        ok := ok && why == None;
      }
    }

    /** Whether every execution event's receipt still checks out. */
    method AuditReceipts(id: ElectronId) returns (ok: bool)
      ensures ok <==> ReceiptsAudit(Contents(), id)
    {
      var events := if id in ledgers then ledgers[id] else [];
      ok := true;
      for i := 0 to |events|
        invariant ok <==> forall k :: 0 <= k < i && IsExecution(events[k]) ==> ReceiptAudit(Contents(), id, events[k])
      {
        if IsExecution(events[i]) && !ReceiptAudit(Contents(), id, events[i]) {
          ok := false;
        }
      }
      assert events == Events(Contents(), id);
    }
  }
}
