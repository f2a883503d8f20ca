/** The receipt checks of the audit. A receipt file is named by electron and tick, and a restore rolls the tick
    back, so a later execution can overwrite a receipt that the ledger still names. The checks hold exactly as long
    as none does; without a restore none can. */
module StoreReceipts {
  import opened Common
  import opened Records
  import opened Ledger
  import opened StoreModel
  import opened StoreInvariants
  import opened StoreEffects

  // ----- The invariant -----

  /** A receipt file is about the electron and tick in its name. */
  ghost predicate FiledOk(d: Disk, p: ReceiptPath)
    requires p in d.receipts
  {
    d.receipts[p].electron == p.electron && d.receipts[p].tick == p.tick
  }

  ghost predicate Names(events: seq<Record>, path: ReceiptPath, h: Hash) {
    exists i :: 0 <= i < |events| && NamesReceipt(events[i], path, h)
  }

  /** The last receipt exists and the ledger of the electron it is about, one of the line, names its hash. */
  ghost predicate VouchedFor(d: Disk, c: Core) {
    c.lastReceipt.Some? ==>
      var p := c.lastReceipt.value;
      p in d.receipts && p.electron in c.lineage
        && Names(Events(d, p.electron), p, Digest(ReceiptContent(d.receipts[p])))
  }

  ghost predicate ReceiptsOf(d: Disk, id: ElectronId)
    requires id in d.states
  {
    ReceiptsAudit(d, id) && VouchedFor(d, d.states[id].core)
  }

  /** What a restore brings back: the line of the snapshot's electron and a receipt it vouches for. */
  ghost predicate SnapshotFiled(d: Disk, h: Hash)
    requires h in d.snapshots
  {
    var c := d.snapshots[h].state.core;
    && VouchedFor(d, c) && d.snapshots[h].id == c.id && c.id in d.states && c.lineage == d.states[c.id].core.lineage
  }

  ghost predicate Filed(d: Disk) {
    && (forall p {:trigger FiledOk(d, p)} :: p in d.receipts ==> FiledOk(d, p))
    && (forall id {:trigger ReceiptsOf(d, id)} :: id in d.states ==> ReceiptsOf(d, id))
    && (forall h {:trigger SnapshotFiled(d, h)} :: h in d.snapshots ==> SnapshotFiled(d, h))
  }

  // ----- A commit that spoils no named receipt keeps it -----

  /** Some execution of this electron is recorded under this path with another receipt. */
  ghost predicate Spoils(d: Disk, id: ElectronId, p: ReceiptPath, r: Receipt) {
    exists i :: 0 <= i < |Events(d, id)| && NamesAnother(Events(d, id)[i], p, r)
  }

  predicate NamesAnother(e: Record, p: ReceiptPath, r: Receipt) {
    IsExecution(e) && e.payload.OfReceipt? && e.payload.path == p && e.payload.receipt != Digest(ReceiptContent(r))
  }

  /** The receipt, if any, written before the commit: a file under the committed tick that spoils nothing. */
  ghost predicate Filing(d: Disk, d': Disk, c: Core) {
    || d'.receipts == d.receipts
    || (&& var p := ReceiptPath(c.id, c.tick);
        && p in d'.receipts && d'.receipts == d.receipts[p := d'.receipts[p]]
        && d'.receipts[p].electron == c.id && d'.receipts[p].tick == c.tick && !Spoils(d, c.id, p, d'.receipts[p]))
  }

  /** The committed last receipt is the one its own event names, or one already vouched for in the line. */
  ghost predicate Cites(d: Disk, d': Disk, c: Core, tick: nat, kind: Kind, payload: Payload) {
    var p := ReceiptPath(c.id, c.tick);
    if kind == EXECUTION_VERIFIED then
      && tick == c.tick && c.lastReceipt == Some(p) && p in d'.receipts && c.lineage != []
         && c.lineage[|c.lineage| - 1] == c.id
      && d'.receipts[p].electron == c.id && d'.receipts[p].tick == c.tick
      && payload == OfReceipt(p, Digest(ReceiptContent(d'.receipts[p])), d'.receipts[p].eventLog)
    else
      c.lastReceipt == None || FromLine(d, c)
  }

  ghost predicate FromLine(d: Disk, c: Core) {
    exists w: Core :: VouchedFor(d, w) && w.lastReceipt == c.lastReceipt && Within(w.lineage, c.lineage)
  }

  predicate Within(a: seq<ElectronId>, b: seq<ElectronId>) {
    forall x :: x in a ==> x in b
  }

  /** A snapshot written before the commit is of the electron as it stands. */
  ghost predicate Snapped(d: Disk, d': Disk, c: Core) {
    forall h :: h in d'.snapshots && h !in d.snapshots ==>
      c.id in d.states && d'.snapshots[h].id == c.id && d'.snapshots[h].state.core.id == c.id
      && d'.snapshots[h].state.core.lineage == d.states[c.id].core.lineage
      && d'.snapshots[h].state.core.lastReceipt == d.states[c.id].core.lastReceipt
  }

  ghost predicate Files(d: Disk, d': Disk, c: Core, tick: nat, kind: Kind, payload: Payload) {
    Filing(d, d', c) && Cites(d, d', c, tick, kind, payload) && Snapped(d, d', c)
  }

  /** Every receipt that an audited execution names is as it was. */
  ghost predicate Unspoilt(d: Disk, d': Disk) {
    forall id, i {:trigger Events(d, id)[i]} :: 0 <= i < |Events(d, id)| && IsExecution(Events(d, id)[i]) ==>
      var e := Events(d, id)[i];
      e.payload.OfReceipt? && e.payload.path in d.receipts && e.payload.path in d'.receipts
      && d'.receipts[e.payload.path] == d.receipts[e.payload.path]
  }

  lemma NoEventsYet(d: Disk, id: ElectronId)
    requires Good(d) && id !in d.states
    ensures Events(d, id) == [] && ReceiptsAudit(d, id)
  {
    assert id !in d.ledgers.Keys;
  }

  lemma NamedReceiptsStay(d: Disk, d': Disk, c: Core)
    requires Good(d) && Filed(d) && Filing(d, d', c)
    ensures Unspoilt(d, d')
  {
    var p := ReceiptPath(c.id, c.tick);
    forall id, i | 0 <= i < |Events(d, id)| && IsExecution(Events(d, id)[i])
      ensures var e := Events(d, id)[i];
              e.payload.OfReceipt? && e.payload.path in d.receipts && e.payload.path in d'.receipts
              && d'.receipts[e.payload.path] == d.receipts[e.payload.path]
    {
      var e := Events(d, id)[i];
      if id !in d.states {
        NoEventsYet(d, id);
      } else {
        assert ReceiptsOf(d, id);
      }
      assert ReceiptAudit(d, id, e);
      assert FiledOk(d, e.payload.path);
      if d'.receipts != d.receipts && e.payload.path == p {
        assert !NamesAnother(Events(d, c.id)[i], p, d'.receipts[p]);
      }
    }
  }

  lemma NamedStaysNamed(events: seq<Record>, more: seq<Record>, p: ReceiptPath, h: Hash)
    requires Names(events, p, h)
    ensures Names(events + more, p, h)
  {
    var i :| 0 <= i < |events| && NamesReceipt(events[i], p, h);
    assert NamesReceipt((events + more)[i], p, h);
  }

  lemma AuditExtends(d: Disk, after: Disk, id: ElectronId, more: seq<Record>)
    requires ReceiptsAudit(d, id) && Unspoilt(d, after) && Events(after, id) == Events(d, id) + more
    requires forall i :: 0 <= i < |more| && IsExecution(more[i]) ==> ReceiptAudit(after, id, more[i])
    ensures ReceiptsAudit(after, id)
  {
    var events := Events(d, id);
    forall i | 0 <= i < |Events(after, id)| && IsExecution(Events(after, id)[i])
      ensures ReceiptAudit(after, id, Events(after, id)[i])
    {
      if i < |events| {
        assert ReceiptAudit(d, id, events[i]);
      }
    }
  }

  lemma VouchStays(d: Disk, after: Disk, c: Core, e: Core)
    requires VouchedFor(d, c) && e.lastReceipt == c.lastReceipt && Within(c.lineage, e.lineage)
    requires Unspoilt(d, after) && forall id :: Events(d, id) <= Events(after, id)
    ensures VouchedFor(after, e)
  {
    if e.lastReceipt.Some? {
      var p := e.lastReceipt.value;
      var was, now_ := Events(d, p.electron), Events(after, p.electron);
      var i :| 0 <= i < |was| && NamesReceipt(was[i], p, Digest(ReceiptContent(d.receipts[p])));
      assert IsExecution(Events(d, p.electron)[i]);
      assert now_ == was + now_[|was|..];
      NamedStaysNamed(was, now_[|was|..], p, Digest(ReceiptContent(d.receipts[p])));
    }
  }

  lemma LedgersGrow(d: Disk, d': Disk, c: Core, tick: nat, now: Timestamp, kind: Kind, payload: Payload)
    requires Committable(d, d', c, kind, payload) && Head(Events(d', c.id)).Some?
    ensures var after := Commit(d', c, tick, now, kind, payload);
            && Events(after, c.id) == Events(d, c.id) + [NewRecord(Events(d', c.id), tick, now, kind, payload)]
            && (forall id :: id != c.id ==> Events(after, id) == Events(d, id))
            && (forall id :: Events(d, id) <= Events(after, id))
  {
    assert Events(d', c.id) == Events(d, c.id);
  }

  lemma CommitFiles(d: Disk, d': Disk, c: Core, tick: nat, now: Timestamp, kind: Kind, payload: Payload)
    requires Good(d) && Filed(d) && Committable(d, d', c, kind, payload) && Files(d, d', c, tick, kind, payload)
    ensures Head(Events(d', c.id)).Some?
    ensures Filed(Commit(d', c, tick, now, kind, payload))
  {
    CommitsToGood(d, d', c, tick, now, kind, payload);
    var after := Commit(d', c, tick, now, kind, payload);
    forall p | p in after.receipts
      ensures FiledOk(after, p)
    {
      assert p in d.receipts ==> FiledOk(d, p);
    }
    forall id | id in after.states
      ensures ReceiptsOf(after, id)
    {
      if id == c.id {
        CommittedReceipts(d, d', c, tick, now, kind, payload);
      } else {
        OtherReceipts(d, d', c, tick, now, kind, payload, id);
      }
    }
    forall h | h in after.snapshots
      ensures SnapshotFiled(after, h)
    {
      SnapshotStaysFiled(d, d', c, tick, now, kind, payload, h);
    }
  }

  lemma SnapshotStaysFiled(d: Disk, d': Disk, c: Core, tick: nat, now: Timestamp, kind: Kind, payload: Payload, h: Hash)
    requires Good(d) && Filed(d) && Committable(d, d', c, kind, payload) && Filing(d, d', c) && Snapped(d, d', c)
    requires Head(Events(d', c.id)).Some? && h in d'.snapshots
    ensures SnapshotFiled(Commit(d', c, tick, now, kind, payload), h)
  {
    NamedReceiptsStay(d, d', c);
    LedgersGrow(d, d', c, tick, now, kind, payload);
    var after, core := Commit(d', c, tick, now, kind, payload), d'.snapshots[h].state.core;
    if h in d.snapshots {
      assert SnapshotFiled(d, h);
      VouchStays(d, after, core, core);
    } else {
      assert ReceiptsOf(d, c.id);
      VouchStays(d, after, d.states[c.id].core, core);
    }
  }

  lemma OtherReceipts(d: Disk, d': Disk, c: Core, tick: nat, now: Timestamp, kind: Kind, payload: Payload,
      id: ElectronId)
    requires Good(d) && Filed(d) && Committable(d, d', c, kind, payload) && Filing(d, d', c)
    requires Head(Events(d', c.id)).Some? && id in d.states && id != c.id
    ensures var after := Commit(d', c, tick, now, kind, payload);
            id in after.states && ReceiptsOf(after, id)
  {
    assert ReceiptsOf(d, id);
    NamedReceiptsStay(d, d', c);
    LedgersGrow(d, d', c, tick, now, kind, payload);
    var after := Commit(d', c, tick, now, kind, payload);
    AuditExtends(d, after, id, []);
    VouchStays(d, after, d.states[id].core, d.states[id].core);
  }

  lemma CommittedReceipts(d: Disk, d': Disk, c: Core, tick: nat, now: Timestamp, kind: Kind, payload: Payload)
    requires Good(d) && Filed(d) && Committable(d, d', c, kind, payload) && Files(d, d', c, tick, kind, payload)
    requires Head(Events(d', c.id)).Some?
    ensures ReceiptsOf(Commit(d', c, tick, now, kind, payload), c.id)
  {
    var after := Commit(d', c, tick, now, kind, payload);
    var rec := NewRecord(Events(d', c.id), tick, now, kind, payload);
    NamedReceiptsStay(d, d', c);
    LedgersGrow(d, d', c, tick, now, kind, payload);
    if c.id in d.states {
      assert ReceiptsOf(d, c.id);
    } else {
      NoEventsYet(d, c.id);
    }
    AuditExtends(d, after, c.id, [rec]);
    var e := after.states[c.id].core;
    if kind == EXECUTION_VERIFIED {
      assert NamesReceipt(Events(after, c.id)[|Events(d, c.id)|], e.lastReceipt.value,
                          Digest(ReceiptContent(after.receipts[e.lastReceipt.value])));
    } else if e.lastReceipt.Some? {
      var w: Core :| VouchedFor(d, w) && w.lastReceipt == c.lastReceipt && Within(w.lineage, c.lineage);
      VouchStays(d, after, w, e);
    }
  }

  // ----- Each call files properly, unless it spoils a receipt -----

  lemma UnchangedFiles(d: Disk, d': Disk, c: Core, tick: nat, kind: Kind, payload: Payload)
    requires Filed(d) && c.id in d.states && d'.receipts == d.receipts && kind != EXECUTION_VERIFIED
            && Snapped(d, d', c)
    requires c.lastReceipt == d.states[c.id].core.lastReceipt && c.lineage == d.states[c.id].core.lineage
    ensures Files(d, d', c, tick, kind, payload)
  {
    assert ReceiptsOf(d, c.id);
  }

  lemma CreateFiles(d: Disk, cfg: Config, id: ElectronId, genome: Genome, now: Timestamp)
    requires Good(d) && Filed(d) && id !in d.states
    ensures Filed(Create(d, cfg, id, genome, now).disk)
  {
    if |d.states| < cfg.maxElectrons {
      var c := NewCore(id, genome, now);
      var payload := OfGenesis(Digest(GenomeContent(genome)), Seal(c).seal);
      NoEventsYet(d, id);
      SaveEventIsCommit(d, c, 0, now, GENESIS, payload);
      CommitFiles(d, d, c, 0, now, GENESIS, payload);
    }
  }

  lemma SnapshotFiles(d: Disk, id: ElectronId, now: Timestamp)
    requires Good(d) && Filed(d)
    ensures Filed(TakeSnapshot(d, id, now).disk)
  {
    SnapshotIsGood(d, id, now);
    if Snappable(d, id) {
      SnapshotIsCommit(d, id, now);
      SnapshotIsCommittable(d, id);
      var c, h := Pointed(d, id), Frozen(d, id).hash;
      UnchangedFiles(d, WithSnapshot(d, id), c, c.tick, SNAPSHOT, OfSnapshot(h));
      CommitFiles(d, WithSnapshot(d, id), c, c.tick, now, SNAPSHOT, OfSnapshot(h));
    }
  }

  lemma SuspendFiles(d: Disk, id: ElectronId, value: bool, now: Timestamp)
    requires Good(d) && Filed(d)
    ensures Filed(SetSuspended(d, id, value, now).disk)
  {
    SuspendIsGood(d, id, value, now);
    if SetSuspended(d, id, value, now).refused == None {
      LoadsWhole(d, id);
      var c := d.states[id].core;
      var kind := if value then SUSPEND else RESUME;
      var c' := WithStatus(c.(suspended := value), if value then SUSPENDED else READY);
      assert ElectronOk(d, id);
      SaveEventIsCommit(d, c', c.tick, now, kind, Nothing);
      UnchangedFiles(d, d, c', c.tick, kind, Nothing);
      CommitFiles(d, d, c', c.tick, now, kind, Nothing);
    }
  }

  lemma RetireFiles(d: Disk, id: ElectronId, now: Timestamp)
    requires Good(d) && Filed(d)
    ensures Filed(Retire(d, id, now).disk)
  {
    RetireIsGood(d, id, now);
    if Retire(d, id, now).refused == None {
      LoadsWhole(d, id);
      var c := d.states[id].core;
      var c' := WithStatus(c.(retired := true), RETIRED);
      assert ElectronOk(d, id);
      SaveEventIsCommit(d, c', c.tick, now, Kind.RETIRE, Nothing);
      UnchangedFiles(d, d, c', c.tick, Kind.RETIRE, Nothing);
      CommitFiles(d, d, c', c.tick, now, Kind.RETIRE, Nothing);
    }
  }

  /** The child inherits the parent's last receipt; the parent's line, which vouches for it, is the child's too. */
  lemma BirthFiles(d: Disk, id: ElectronId, child: ElectronId, now: Timestamp)
    requires Snappable(d, id) && Filed(d) && child !in d.states
    ensures Events(TakeSnapshot(d, id, now).disk, child) == []
    ensures Filed(Born(d, id, child, now))
  {
    BirthIsGood(d, id, child, now);
    SnapshotFiles(d, id, now);
    SnapshotIsCommit(d, id, now);
    SnapshotKeepsOthers(d, id, now, child);
    ChildIsCommittable(d, id, child, now);
    var d1 := TakeSnapshot(d, id, now).disk;
    var c, h := Child(d, id, child, now), Frozen(d, id).hash;
    assert ReceiptsOf(d1, id);
    assert d1.states[id].core.lastReceipt == c.lastReceipt && Within(d1.states[id].core.lineage, c.lineage);
    CommitFiles(d1, d1, c, c.tick, now, CLONE_GENESIS, OfClone(id, h));
  }

  lemma TellingFiles(d: Disk, id: ElectronId, tick: nat, now: Timestamp, kind: Kind, payload: Payload)
    requires Good(d) && Filed(d) && id in d.states && d.states[id].core.id == id && !d.states[id].core.retired
    requires Head(Events(d, id)).Some? && kind !in {BadKind, EXECUTION_VERIFIED} && payload != NotAnObject
    ensures Filed(Commit(d, d.states[id].core, tick, now, kind, payload))
  {
    assert ElectronOk(d, id);
    UnchangedFiles(d, d, d.states[id].core, tick, kind, payload);
    CommitFiles(d, d, d.states[id].core, tick, now, kind, payload);
  }

  lemma ForkFiles(d: Disk, cfg: Config, id: ElectronId, child: ElectronId, now: Timestamp)
    requires Good(d) && Filed(d)
    ensures Filed(Fork(d, cfg, id, child, now).disk)
  {
    ForkIsGood(d, cfg, id, child, now);
    if Fork(d, cfg, id, child, now).refused == None {
      BirthFiles(d, id, child, now);
      BirthKeepsParent(d, id, child, now);
      ForkIsCommits(d, cfg, id, child, now);
      TellingFiles(Born(d, id, child, now), id, d.states[id].core.tick, now, FORK, OfFork(child, Frozen(d, id).hash));
    } else if id in d.states && Operable(d.states[id].core) && |d.states| < cfg.maxElectrons {
      LoadsWhole(d, id);
      SnapshotFiles(d, id, now);
      SnapshotIsGood(d, id, now);
      SnapshotKeepsIds(d, id, now);
    }
  }

  /** Everyone in a lineage has its own lineage within it. */
  lemma {:induction false} LineageIsClosed(d: Disk, id: ElectronId, a: ElectronId)
    requires Good(d) && id in d.states && a in d.states[id].core.lineage
    ensures a in d.states && Within(d.states[a].core.lineage, d.states[id].core.lineage)
    decreases |d.states[id].core.lineage|
  {
    assert ElectronOk(d, id);
    var c := d.states[id].core;
    if a != id {
      LineageIsClosed(d, c.parent.value, a);
    }
  }

  lemma RestoreFiles(d: Disk, id: ElectronId, h: Hash, now: Timestamp)
    requires Good(d) && Filed(d)
    ensures Filed(Restore(d, id, h, now).disk)
  {
    RestoreIsGood(d, id, h, now);
    if Restore(d, id, h, now).refused == None {
      assert ElectronOk(d, id);
      assert SnapshotFiled(d, h) && SnapshotOk(d, h);
      var current, snap := d.states[id].core, d.snapshots[h].state.core;
      LineageIsClosed(d, id, snap.id);
      var c := Restored(snap, current, h);
      SaveEventIsCommit(d, c, c.tick, now, RESTORE, OfRestore(h, false));
      assert FromLine(d, c);
      CommitFiles(d, d, c, c.tick, now, RESTORE, OfRestore(h, false));
    }
  }

  /** The execution's receipt is written over one that a recorded execution names. */
  ghost predicate Overwrites(d: Disk, cfg: Config, id: ElectronId, e: Execution) {
    Started(d, cfg, id) && Objection(cfg, e) == None &&
    var c := RunningCore(d, id);
    Spoils(d, id, ReceiptPath(id, c.tick), Receipt(id, c.tick, e.eventLog, e.detail))
  }

  lemma EndingFiles(d: Disk, cfg: Config, id: ElectronId, e: Execution)
    requires Good(d) && Filed(d) && Started(d, cfg, id) && !Overwrites(d, cfg, id, e)
    ensures var end := Ending(d, cfg, id, e);
            Files(d, AtCommit(d, cfg, id, e), end.core, end.core.tick, end.kind, end.payload)
  {
    assert ElectronOk(d, id);
    EndingIsShaped(d, cfg, id, e);
    var c := Ending(d, cfg, id, e).core;
    assert Filing(d, AtCommit(d, cfg, id, e), c);
    if !Accepted(cfg, e) {
      assert ReceiptsOf(d, id);
      assert d.states[id].core.lastReceipt == c.lastReceipt && Within(d.states[id].core.lineage, c.lineage);
    }
  }

  lemma RecordFiles(d: Disk, cfg: Config, id: ElectronId, e: Execution, now: Timestamp)
    requires Good(d) && Filed(d) && !Overwrites(d, cfg, id, e)
    ensures Filed(RecordExecution(d, cfg, id, e, now).disk)
  {
    RecordIsGood(d, cfg, id, e, now);
    if id in d.states {
      LoadsWhole(d, id);
      if Started(d, cfg, id) {
        RecordIsCommit(d, cfg, id, e, now);
        EndingIsCommittable(d, cfg, id, e);
        EndingFiles(d, cfg, id, e);
        var end := Ending(d, cfg, id, e);
        CommitFiles(d, AtCommit(d, cfg, id, e), end.core, end.core.tick, now, end.kind, end.payload);
      }
    }
  }

  // ----- Exactly when -----

  lemma OverwritingBreaks(d: Disk, cfg: Config, id: ElectronId, e: Execution, now: Timestamp)
    requires Good(d) && Overwrites(d, cfg, id, e)
    ensures !ReceiptsAudit(RecordExecution(d, cfg, id, e, now).disk, id)
  {
    RecordIsCommit(d, cfg, id, e, now);
    RunningIsShaped(d, cfg, id);
    var c := RunningCore(d, id);
    var p, r := ReceiptPath(id, c.tick), Receipt(id, c.tick, e.eventLog, e.detail);
    var after := RecordExecution(d, cfg, id, e, now).disk;
    var i :| 0 <= i < |Events(d, id)| && NamesAnother(Events(d, id)[i], p, r);
    assert Events(after, id)[i] == Events(d, id)[i];
    assert after.receipts[p] == r;
    assert !ReceiptAudit(after, id, Events(after, id)[i]);
  }

  /** Whether a call overwrites a receipt that is named. */
  ghost predicate CallOverwrites(d: Disk, cfg: Config, call: Call) {
    call.DoRecord? && Overwrites(d, cfg, call.id, call.execution)
  }

  lemma CallFiles(d: Disk, cfg: Config, call: Call)
    requires Good(d) && Filed(d) && IsFresh(d, call) && !CallOverwrites(d, cfg, call)
    ensures Filed(Do(d, cfg, call).disk)
  {
    match call
    case DoCreate(id, genome, now) => CreateFiles(d, cfg, id, genome, now);
    case DoSnapshot(id, now) => SnapshotFiles(d, id, now);
    case DoFork(id, child, now) => ForkFiles(d, cfg, id, child, now);
    case DoRestore(id, h, now) => RestoreFiles(d, id, h, now);
    case DoSuspend(id, value, now) => SuspendFiles(d, id, value, now);
    case DoRetire(id, now) => RetireFiles(d, id, now);
    case DoRecord(id, e, now) => RecordFiles(d, cfg, id, e, now);
  }

  /** Where the receipts are in order, a call leaves every electron's receipts in order exactly when it does not
      overwrite a named one. */
  lemma ReceiptsSurviveIffNotOverwritten(d: Disk, cfg: Config, call: Call)
    requires Good(d) && Filed(d) && IsFresh(d, call)
    ensures (forall id :: id in Do(d, cfg, call).disk.states ==> ReceiptsAudit(Do(d, cfg, call).disk, id)) <==>
            !CallOverwrites(d, cfg, call)
  {
    if CallOverwrites(d, cfg, call) {
      OverwritingBreaks(d, cfg, call.id, call.execution, call.now);
      CallIsGood(d, cfg, call);
      assert KeptFor(d, Do(d, cfg, call).disk, call.id);
    } else {
      CallFiles(d, cfg, call);
      forall id | id in Do(d, cfg, call).disk.states
        ensures ReceiptsAudit(Do(d, cfg, call).disk, id)
      {
        assert ReceiptsOf(Do(d, cfg, call).disk, id);
      }
    }
  }

  lemma FiledPassesAudit(d: Disk, id: ElectronId)
    requires Good(d) && Filed(d) && id in d.states
    ensures ReceiptsAudit(d, id) && LastReceiptAudit(d, id)
  {
    assert ReceiptsOf(d, id);
    var c := d.states[id].core;
    if c.lastReceipt.Some? {
      var p := c.lastReceipt.value;
      assert FiledOk(d, p);
      assert ElectronOk(d, id);
      assert ElectronOk(d, p.electron);
      HeadMeansVerified(Events(d, p.electron));
    }
  }

  // ----- Runs -----

  ghost predicate OverwritesAt(cfg: Config, calls: seq<Call>, k: nat)
    requires k < |calls|
  {
    CallOverwrites(After(cfg, calls[..k]), cfg, calls[k])
  }

  /** A property of disks that a step keeps unless it is excused there. */
  ghost predicate Keeps(step: (Disk, Call) -> Disk, holds: Disk -> bool, excused: (Disk, Call) -> bool) {
    forall d, call {:trigger step(d, call)} :: holds(d) && IsFresh(d, call) && !excused(d, call) ==>
      holds(step(d, call))
  }

  lemma {:induction false} RunKeepsUnless(step: (Disk, Call) -> Disk, holds: Disk -> bool,
      excused: (Disk, Call) -> bool, calls: seq<Call>)
    requires holds(EMPTY) && Keeps(step, holds, excused) && AllFresh(step, calls)
    requires forall k :: 0 <= k < |calls| ==> !excused(Run(step, calls[..k]), calls[k])
    ensures holds(Run(step, calls))
    decreases |calls|
  {
    if calls != [] {
      var n := |calls| - 1;
      FreshPrefix(step, calls, n);
      forall k | 0 <= k < n
        ensures !excused(Run(step, calls[..n][..k]), calls[..n][k])
      {
        assert calls[..n][..k] == calls[..k];
      }
      RunKeepsUnless(step, holds, excused, calls[..n]);
      assert FreshAt(step, calls, n);
    }
  }

  /** In every run, restores included, in which no execution overwrites a named receipt, every electron passes the
      receipts and last-receipt checks. */
  lemma ReceiptsHoldUnlessOverwritten(cfg: Config, calls: seq<Call>, id: ElectronId)
    requires FreshIds(cfg, calls) && id in After(cfg, calls).states
    requires forall k :: 0 <= k < |calls| ==> !OverwritesAt(cfg, calls, k)
    ensures ReceiptsAudit(After(cfg, calls), id) && LastReceiptAudit(After(cfg, calls), id)
  {
    EmptyIsGood();
    forall d, call | Good(d) && Filed(d) && IsFresh(d, call) && !CallOverwrites(d, cfg, call)
      ensures Good(Doing(cfg)(d, call)) && Filed(Doing(cfg)(d, call))
    {
      CallIsGood(d, cfg, call);
      CallFiles(d, cfg, call);
    }
    forall k | 0 <= k < |calls|
      ensures !CallOverwrites(Run(Doing(cfg), calls[..k]), cfg, calls[k])
    {
      assert !OverwritesAt(cfg, calls, k);
    }
    RunKeepsUnless(Doing(cfg), d => Good(d) && Filed(d), (d, call) => CallOverwrites(d, cfg, call), calls);
    FiledPassesAudit(After(cfg, calls), id);
  }

  // ----- Without a restore nothing is overwritten -----

  /** No recorded execution of an electron is ahead of its tick. */
  ghost predicate TicksAhead(d: Disk) {
    forall id, i {:trigger Events(d, id)[i]} :: id in d.states && 0 <= i < |Events(d, id)| ==>
      var e := Events(d, id)[i];
      IsExecution(e) && e.payload.OfReceipt? ==> e.payload.path.tick <= d.states[id].core.tick
  }

  lemma CommitKeepsTicks(d: Disk, d': Disk, c: Core, tick: nat, now: Timestamp, kind: Kind, payload: Payload)
    requires Good(d) && TicksAhead(d) && Committable(d, d', c, kind, payload)
    requires c.id in d.states ==> d.states[c.id].core.tick <= c.tick
    requires kind == EXECUTION_VERIFIED && payload.OfReceipt? ==> payload.path.tick <= c.tick
    ensures Head(Events(d', c.id)).Some?
    ensures TicksAhead(Commit(d', c, tick, now, kind, payload))
  {
    CommitsToGood(d, d', c, tick, now, kind, payload);
    LedgersGrow(d, d', c, tick, now, kind, payload);
    if c.id !in d.states {
      NoEventsYet(d, c.id);
    }
    var after := Commit(d', c, tick, now, kind, payload);
    forall id, i | id in after.states && 0 <= i < |Events(after, id)| && IsExecution(Events(after, id)[i])
                   && Events(after, id)[i].payload.OfReceipt?
      ensures Events(after, id)[i].payload.path.tick <= after.states[id].core.tick
    {
      if i < |Events(d, id)| {
        assert Events(after, id)[i] == Events(d, id)[i];
      }
    }
  }

  lemma SnapshotKeepsTicks(d: Disk, id: ElectronId, now: Timestamp)
    requires Good(d) && TicksAhead(d)
    ensures TicksAhead(TakeSnapshot(d, id, now).disk)
  {
    SnapshotIsGood(d, id, now);
    if Snappable(d, id) {
      SnapshotIsCommit(d, id, now);
      SnapshotIsCommittable(d, id);
      var c, h := Pointed(d, id), Frozen(d, id).hash;
      CommitKeepsTicks(d, WithSnapshot(d, id), c, c.tick, now, SNAPSHOT, OfSnapshot(h));
    }
  }

  lemma BirthKeepsTicks(d: Disk, id: ElectronId, child: ElectronId, now: Timestamp)
    requires Snappable(d, id) && TicksAhead(d) && child !in d.states
    ensures Events(TakeSnapshot(d, id, now).disk, child) == []
    ensures TicksAhead(Born(d, id, child, now))
  {
    BirthIsGood(d, id, child, now);
    SnapshotKeepsTicks(d, id, now);
    SnapshotKeepsOthers(d, id, now, child);
    ChildIsCommittable(d, id, child, now);
    var c, h := Child(d, id, child, now), Frozen(d, id).hash;
    CommitKeepsTicks(TakeSnapshot(d, id, now).disk, TakeSnapshot(d, id, now).disk, c, c.tick, now, CLONE_GENESIS,
      OfClone(id, h));
  }

  lemma TellingKeepsTicks(d: Disk, id: ElectronId, tick: nat, now: Timestamp, kind: Kind, payload: Payload)
    requires Good(d) && TicksAhead(d) && id in d.states && d.states[id].core.id == id && !d.states[id].core.retired
    requires Head(Events(d, id)).Some? && kind !in {BadKind, EXECUTION_VERIFIED} && payload != NotAnObject
    ensures TicksAhead(Commit(d, d.states[id].core, tick, now, kind, payload))
  {
    assert ElectronOk(d, id);
    CommitKeepsTicks(d, d, d.states[id].core, tick, now, kind, payload);
  }

  lemma ForkKeepsTicks(d: Disk, cfg: Config, id: ElectronId, child: ElectronId, now: Timestamp)
    requires Good(d) && TicksAhead(d)
    ensures TicksAhead(Fork(d, cfg, id, child, now).disk)
  {
    ForkIsGood(d, cfg, id, child, now);
    if Fork(d, cfg, id, child, now).refused == None {
      BirthKeepsTicks(d, id, child, now);
      BirthKeepsParent(d, id, child, now);
      ForkIsCommits(d, cfg, id, child, now);
      TellingKeepsTicks(Born(d, id, child, now), id, d.states[id].core.tick, now, FORK,
        OfFork(child, Frozen(d, id).hash));
    } else if id in d.states && Operable(d.states[id].core) && |d.states| < cfg.maxElectrons {
      LoadsWhole(d, id);
      SnapshotKeepsTicks(d, id, now);
      SnapshotIsGood(d, id, now);
      SnapshotKeepsIds(d, id, now);
    }
  }

  lemma LifecycleKeepsTicks(d: Disk, c: Core, now: Timestamp, kind: Kind)
    requires Good(d) && TicksAhead(d) && Committable(d, d, c, kind, Nothing) && kind != EXECUTION_VERIFIED
    requires c.id in d.states && c.tick == d.states[c.id].core.tick
    ensures Head(Events(d, c.id)).Some? && TicksAhead(Event(Save(d, c).disk, c.id, c.tick, now, kind, Nothing).disk)
  {
    CommitKeepsTicks(d, d, c, c.tick, now, kind, Nothing);
    SaveEventIsCommit(d, c, c.tick, now, kind, Nothing);
  }

  lemma SuspendKeepsTicks(d: Disk, id: ElectronId, value: bool, now: Timestamp)
    requires Good(d) && TicksAhead(d)
    ensures TicksAhead(SetSuspended(d, id, value, now).disk)
  {
    SuspendIsGood(d, id, value, now);
    if SetSuspended(d, id, value, now).refused == None {
      LoadsWhole(d, id);
      assert ElectronOk(d, id);
      var c := d.states[id].core;
      var c' := WithStatus(c.(suspended := value), if value then SUSPENDED else READY);
      LifecycleKeepsTicks(d, c', now, if value then SUSPEND else RESUME);
    }
  }

  lemma RetireKeepsTicks(d: Disk, id: ElectronId, now: Timestamp)
    requires Good(d) && TicksAhead(d)
    ensures TicksAhead(Retire(d, id, now).disk)
  {
    RetireIsGood(d, id, now);
    if Retire(d, id, now).refused == None {
      LoadsWhole(d, id);
      assert ElectronOk(d, id);
      LifecycleKeepsTicks(d, WithStatus(d.states[id].core.(retired := true), RETIRED), now, Kind.RETIRE);
    }
  }

  lemma CreateKeepsTicks(d: Disk, cfg: Config, id: ElectronId, genome: Genome, now: Timestamp)
    requires Good(d) && TicksAhead(d) && id !in d.states
    ensures TicksAhead(Create(d, cfg, id, genome, now).disk)
  {
    if |d.states| < cfg.maxElectrons {
      var c := NewCore(id, genome, now);
      var payload := OfGenesis(Digest(GenomeContent(genome)), Seal(c).seal);
      NoEventsYet(d, id);
      SaveEventIsCommit(d, c, 0, now, GENESIS, payload);
      CommitKeepsTicks(d, d, c, 0, now, GENESIS, payload);
    }
  }

  lemma RecordKeepsTicks(d: Disk, cfg: Config, id: ElectronId, e: Execution, now: Timestamp)
    requires Good(d) && TicksAhead(d)
    ensures TicksAhead(RecordExecution(d, cfg, id, e, now).disk)
  {
    RecordIsGood(d, cfg, id, e, now);
    if id in d.states {
      LoadsWhole(d, id);
      if Started(d, cfg, id) {
        RecordIsCommit(d, cfg, id, e, now);
        EndingIsCommittable(d, cfg, id, e);
        EndingIsShaped(d, cfg, id, e);
        var end := Ending(d, cfg, id, e);
        CommitKeepsTicks(d, AtCommit(d, cfg, id, e), end.core, end.core.tick, now, end.kind, end.payload);
      }
    }
  }

  lemma CallKeepsTicks(d: Disk, cfg: Config, call: Call)
    requires Good(d) && TicksAhead(d) && IsFresh(d, call) && !call.DoRestore?
    ensures TicksAhead(Do(d, cfg, call).disk) && !CallOverwrites(d, cfg, call)
  {
    match call
    case DoCreate(id, genome, now) => CreateKeepsTicks(d, cfg, id, genome, now);
    case DoSnapshot(id, now) => SnapshotKeepsTicks(d, id, now);
    case DoFork(id, child, now) => ForkKeepsTicks(d, cfg, id, child, now);
    case DoSuspend(id, value, now) => SuspendKeepsTicks(d, id, value, now);
    case DoRetire(id, now) => RetireKeepsTicks(d, id, now);
    case DoRecord(id, e, now) => RecordKeepsTicks(d, cfg, id, e, now);
  }

  ghost predicate NoRestore(calls: seq<Call>) {
    forall i :: 0 <= i < |calls| ==> !calls[i].DoRestore?
  }

  /** In every run without a restore, each recorded execution's receipt is still the file it was recorded with, and
      each electron's last receipt is vouched for by its own line. */
  lemma ReceiptsHoldWithoutRestore(cfg: Config, calls: seq<Call>, id: ElectronId)
    requires FreshIds(cfg, calls) && NoRestore(calls) && id in After(cfg, calls).states
    ensures ReceiptsAudit(After(cfg, calls), id) && LastReceiptAudit(After(cfg, calls), id)
  {
    EmptyIsGood();
    forall d, call | Good(d) && Filed(d) && TicksAhead(d) && IsFresh(d, call) && !call.DoRestore?
      ensures Good(Doing(cfg)(d, call)) && Filed(Doing(cfg)(d, call)) && TicksAhead(Doing(cfg)(d, call))
    {
      CallIsGood(d, cfg, call);
      CallKeepsTicks(d, cfg, call);
      CallFiles(d, cfg, call);
    }
    RunHolds(Doing(cfg), d => Good(d) && Filed(d) && TicksAhead(d), (call: Call) => !call.DoRestore?, calls);
    FiledPassesAudit(After(cfg, calls), id);
  }

  // ----- With a restore something can be -----

  lemma RecordLeaves(d: Disk, cfg: Config, id: ElectronId, e: Execution, now: Timestamp)
    requires Good(d) && Started(d, cfg, id) && Accepted(cfg, e)
    ensures var after, tick := RecordExecution(d, cfg, id, e, now).disk, d.states[id].core.tick + 1;
            && Good(after) && Kept(d, after) && id in after.states && !after.states[id].core.retired
               && !after.states[id].core.suspended
            && Names(Events(after, id), ReceiptPath(id, tick),
               Digest(ReceiptContent(Receipt(id, tick, e.eventLog, e.detail))))
  {
    RecordIsGood(d, cfg, id, e, now);
    RecordIsCommit(d, cfg, id, e, now);
    EndingIsShaped(d, cfg, id, e);
    RunningIsShaped(d, cfg, id);
    assert ElectronOk(d, id);
    var c, after := RunningCore(d, id), RecordExecution(d, cfg, id, e, now).disk;
    var events := Events(d, id);
    assert NamesReceipt(Events(after, id)[|events|], ReceiptPath(id, c.tick), ReceiptPayload(c, e).receipt);
  }

  lemma RestoreLeaves(d: Disk, id: ElectronId, h: Hash, now: Timestamp)
    requires Good(d) && id in d.states && !d.states[id].core.retired && !d.states[id].core.suspended
    requires h in d.snapshots && d.snapshots[h].id == id
    ensures var after := Restore(d, id, h, now).disk;
            && Restore(d, id, h, now).refused == None && Good(after) && Kept(d, after) && id in after.states
            && after.receipts == d.receipts
            && var c := after.states[id].core;
               c.status == READY && c.tick == d.snapshots[h].state.core.tick && !c.retired && !c.suspended
  {
    assert ElectronOk(d, id);
    RestoreIsGood(d, id, h, now);
    RestoreIsCommit(d, id, h, now);
  }

  lemma NamedIsSpoilt(d: Disk, id: ElectronId, p: ReceiptPath, r: Receipt, s: Receipt)
    requires Names(Events(d, id), p, Digest(ReceiptContent(r))) && r != s
    ensures Spoils(d, id, p, s)
  {
    var i :| 0 <= i < |Events(d, id)| && NamesReceipt(Events(d, id)[i], p, Digest(ReceiptContent(r)));
    assert NamesAnother(Events(d, id)[i], p, s);
  }

  lemma RollbackSpoils(d: Disk, later: Disk, cfg: Config, id: ElectronId, r: Receipt, e: Execution)
    requires Kept(d, later) && id in d.states && id in later.states && !AtQuota(later, cfg, id) && Accepted(cfg, e)
    requires later.states[id].core.status == READY && !later.states[id].core.retired && !later.states[id].core.suspended
    requires later.states[id].core.id == id
    requires var tick := later.states[id].core.tick + 1;
             Names(Events(d, id), ReceiptPath(id, tick), Digest(ReceiptContent(r)))
               && r != Receipt(id, tick, e.eventLog, e.detail)
    ensures Overwrites(later, cfg, id, e)
  {
    var tick := later.states[id].core.tick + 1;
    var p := ReceiptPath(id, tick);
    assert KeptFor(d, later, id);
    var was, now_ := Events(d, id), Events(later, id);
    assert now_ == was + now_[|was|..];
    NamedStaysNamed(was, now_[|was|..], p, Digest(ReceiptContent(r)));
    NamedIsSpoilt(later, id, p, r, Receipt(id, tick, e.eventLog, e.detail));
  }

  lemma RestoreThenExecute(d: Disk, cfg: Config, id: ElectronId, h: Hash, r: Receipt, e: Execution, now: Timestamp)
    requires Good(d) && id in d.states && !d.states[id].core.retired && !d.states[id].core.suspended
    requires h in d.snapshots && d.snapshots[h].id == id && !AtQuota(d, cfg, id) && Accepted(cfg, e)
    requires var tick := d.snapshots[h].state.core.tick + 1;
             Names(Events(d, id), ReceiptPath(id, tick), Digest(ReceiptContent(r)))
               && r != Receipt(id, tick, e.eventLog, e.detail)
    ensures !ReceiptsAudit(RecordExecution(Restore(d, id, h, now).disk, cfg, id, e, now).disk, id)
  {
    RestoreLeaves(d, id, h, now);
    LoadsWhole(Restore(d, id, h, now).disk, id);
    assert KeptFor(d, Restore(d, id, h, now).disk, id);
    assert ElectronOk(d, id);
    RollbackSpoils(d, Restore(d, id, h, now).disk, cfg, id, r, e);
    OverwritingBreaks(Restore(d, id, h, now).disk, cfg, id, e, now);
  }

  /** From any good disk, with a snapshot of an operable electron as it stands and the receipts quota not reached:
      execute, restore the snapshot and execute with another result, and the first execution's receipt no longer
      checks out. */
  lemma RestoreLetsReceiptsBeOverwritten(d: Disk, cfg: Config, id: ElectronId, h: Hash, e1: Execution, e2: Execution,
      now: Timestamp)
    requires Good(d) && id in d.states && Operable(d.states[id].core) && !AtQuota(d, cfg, id)
    requires !AtQuota(RecordExecution(d, cfg, id, e1, now).disk, cfg, id)
    requires h in d.snapshots && d.snapshots[h].id == id && d.snapshots[h].state.core.tick == d.states[id].core.tick
    requires Accepted(cfg, e1) && Accepted(cfg, e2) && (e1.eventLog != e2.eventLog || e1.detail != e2.detail)
    ensures var executed := RecordExecution(d, cfg, id, e1, now).disk;
            var restored := Restore(executed, id, h, now).disk;
            !ReceiptsAudit(RecordExecution(restored, cfg, id, e2, now).disk, id)
  {
    RecordLeaves(d, cfg, id, e1, now);
    RestoreThenExecute(RecordExecution(d, cfg, id, e1, now).disk, cfg, id, h,
                       Receipt(id, d.states[id].core.tick + 1, e1.eventLog, e1.detail), e2, now);
  }

  // ----- A whole run that ends so -----

  lemma OneMore(step: (Disk, Call) -> Disk, calls: seq<Call>, call: Call)
    ensures Run(step, calls + [call]) == step(Run(step, calls), call)
  {
    assert (calls + [call])[..|calls|] == calls;
  }

  lemma RunOfTwo(step: (Disk, Call) -> Disk, a: Call, b: Call)
    ensures Run(step, [a, b]) == step(step(EMPTY, a), b)
  {
    OneMore(step, [], a);
    OneMore(step, [a], b);
    assert [] + [a] == [a] && [a] + [b] == [a, b];
  }

  lemma ThreeMore(step: (Disk, Call) -> Disk, calls: seq<Call>, a: Call, b: Call, c: Call)
    ensures Run(step, calls + [a, b, c]) == step(step(step(Run(step, calls), a), b), c)
  {
    OneMore(step, calls, a);
    OneMore(step, calls + [a], b);
    OneMore(step, calls + [a] + [b], c);
    assert calls + [a, b, c] == calls + [a] + [b] + [c];
  }

  lemma OnlyFirstCreates(step: (Disk, Call) -> Disk, calls: seq<Call>)
    requires calls != [] && forall i :: 0 < i < |calls| ==> !calls[i].DoCreate?
    ensures AllFresh(step, calls)
  {
    assert calls[..0] == [];
    forall i | 0 <= i < |calls|
      ensures FreshAt(step, calls, i)
    {
    }
  }

  /** A new electron with its first snapshot, and no receipt anywhere. */
  ghost predicate CreatedAndSnapped(d: Disk, id: ElectronId) {
    && Good(d) && id in d.states && Operable(d.states[id].core) && d.receipts == map[]
    && var base := d.states[id].core.base;
       base.Some? && base.value in d.snapshots && d.snapshots[base.value].id == id
       && d.snapshots[base.value].state.core.tick == d.states[id].core.tick
  }

  lemma CreateThenSnapshot(cfg: Config, id: ElectronId, genome: Genome, now: Timestamp)
    requires cfg.maxElectrons > 0
    ensures CreatedAndSnapped(TakeSnapshot(Create(EMPTY, cfg, id, genome, now).disk, id, now).disk, id)
  {
    EmptyIsGood();
    CreateEffect(EMPTY, cfg, id, genome, now);
    CreateIsCommit(EMPTY, cfg, id, genome, now);
    var d := Create(EMPTY, cfg, id, genome, now).disk;
    LoadsWhole(d, id);
    SnapshotOfNewborn(d, id, now);
  }

  lemma SnapshotOfNewborn(d: Disk, id: ElectronId, now: Timestamp)
    requires Good(d) && id in d.states && Operable(d.states[id].core) && d.receipts == map[]
    ensures CreatedAndSnapped(TakeSnapshot(d, id, now).disk, id)
  {
    LoadsWhole(d, id);
    SnapshotIsGood(d, id, now);
    SnapshotPoints(d, id, now);
    SnapshotIsCommit(d, id, now);
  }

  lemma FirstReceipt(d: Disk, cfg: Config, id: ElectronId, e: Execution, now: Timestamp)
    requires Good(d) && id in d.states && Operable(d.states[id].core) && d.receipts == map[]
    requires Accepted(cfg, e) && cfg.maxReceipts != 1
    ensures !AtQuota(d, cfg, id) && !AtQuota(RecordExecution(d, cfg, id, e, now).disk, cfg, id)
  {
    assert (set p | p in d.receipts && p.electron == id) == {};
    RecordIsCommit(d, cfg, id, e, now);
    var later := RecordExecution(d, cfg, id, e, now).disk;
    var path := ReceiptPath(RunningCore(d, id).id, RunningCore(d, id).tick);
    RunningIsShaped(d, cfg, id);
    assert (set p | p in later.receipts && p.electron == id) == {path};
  }

  function OverwritingRun(id: ElectronId, genome: Genome, h: Hash, e1: Execution, e2: Execution,
      now: Timestamp): seq<Call> {
    [DoCreate(id, genome, now), DoSnapshot(id, now), DoRecord(id, e1, now), DoRestore(id, h, now),
      DoRecord(id, e2, now)]
  }

  lemma DoingCreates(cfg: Config, d: Disk, id: ElectronId, genome: Genome, now: Timestamp)
    ensures Doing(cfg)(d, DoCreate(id, genome, now)) == Create(d, cfg, id, genome, now).disk
  {
  }

  lemma DoingSnapshots(cfg: Config, d: Disk, id: ElectronId, now: Timestamp)
    ensures Doing(cfg)(d, DoSnapshot(id, now)) == TakeSnapshot(d, id, now).disk
  {
  }

  lemma DoingRecords(cfg: Config, d: Disk, id: ElectronId, e: Execution, now: Timestamp)
    ensures Doing(cfg)(d, DoRecord(id, e, now)) == RecordExecution(d, cfg, id, e, now).disk
  {
  }

  lemma DoingRestores(cfg: Config, d: Disk, id: ElectronId, h: Hash, now: Timestamp)
    ensures Doing(cfg)(d, DoRestore(id, h, now)) == Restore(d, id, h, now).disk
  {
  }

  lemma StartOfRun(cfg: Config, id: ElectronId, genome: Genome, now: Timestamp)
    requires cfg.maxElectrons > 0
    ensures CreatedAndSnapped(After(cfg, [DoCreate(id, genome, now), DoSnapshot(id, now)]), id)
  {
    RunOfTwo(Doing(cfg), DoCreate(id, genome, now), DoSnapshot(id, now));
    DoingCreates(cfg, EMPTY, id, genome, now);
    DoingSnapshots(cfg, Create(EMPTY, cfg, id, genome, now).disk, id, now);
    CreateThenSnapshot(cfg, id, genome, now);
  }

  lemma EndOfRun(cfg: Config, calls: seq<Call>, d: Disk, id: ElectronId, h: Hash, e1: Execution, e2: Execution,
      now: Timestamp)
    requires After(cfg, calls) == d
    ensures var executed := RecordExecution(d, cfg, id, e1, now).disk;
            After(cfg, calls + [DoRecord(id, e1, now), DoRestore(id, h, now), DoRecord(id, e2, now)]) ==
            RecordExecution(Restore(executed, id, h, now).disk, cfg, id, e2, now).disk
  {
    var executed := RecordExecution(d, cfg, id, e1, now).disk;
    ThreeMore(Doing(cfg), calls, DoRecord(id, e1, now), DoRestore(id, h, now), DoRecord(id, e2, now));
    DoingRecords(cfg, d, id, e1, now);
    DoingRestores(cfg, executed, id, h, now);
    DoingRecords(cfg, Restore(executed, id, h, now).disk, id, e2, now);
  }

  lemma OverwritesAfter(cfg: Config, calls: seq<Call>, d: Disk, id: ElectronId, h: Hash, e1: Execution, e2: Execution,
      now: Timestamp)
    requires After(cfg, calls) == d && CreatedAndSnapped(d, id) && d.states[id].core.base == Some(h)
            && cfg.maxReceipts != 1
    requires Accepted(cfg, e1) && Accepted(cfg, e2) && (e1.eventLog != e2.eventLog || e1.detail != e2.detail)
    ensures !ReceiptsAudit(After(cfg, calls + [DoRecord(id, e1, now), DoRestore(id, h, now), DoRecord(id, e2, now)]),
            id)
  {
    FirstReceipt(d, cfg, id, e1, now);
    RestoreLetsReceiptsBeOverwritten(d, cfg, id, h, e1, e2, now);
    EndOfRun(cfg, calls, d, id, h, e1, e2, now);
  }

  /** Such a run from the empty store, under every configuration that admits an electron and two receipts: create,
      snapshot, execute, restore, execute. */
  lemma SomeRunOverwrites(cfg: Config, id: ElectronId, genome: Genome, e1: Execution, e2: Execution, now: Timestamp)
    requires cfg.maxElectrons > 0 && cfg.maxReceipts != 1
    requires Accepted(cfg, e1) && Accepted(cfg, e2) && (e1.eventLog != e2.eventLog || e1.detail != e2.detail)
    ensures exists h :: OverwritesIn(cfg, OverwritingRun(id, genome, h, e1, e2, now), id)
  {
    var start := [DoCreate(id, genome, now), DoSnapshot(id, now)];
    StartOfRun(cfg, id, genome, now);
    var d := After(cfg, start);
    var h := d.states[id].core.base.value;
    OverwritesAfter(cfg, start, d, id, h, e1, e2, now);
    var calls := OverwritingRun(id, genome, h, e1, e2, now);
    assert calls == start + [DoRecord(id, e1, now), DoRestore(id, h, now), DoRecord(id, e2, now)];
    OnlyFirstCreates(Doing(cfg), calls);
    assert OverwritesIn(cfg, calls, id);
  }

  /** After this run of the store the electron's receipts no longer check out. */
  ghost predicate OverwritesIn(cfg: Config, calls: seq<Call>, id: ElectronId) {
    FreshIds(cfg, calls) && !ReceiptsAudit(After(cfg, calls), id)
  }
}
