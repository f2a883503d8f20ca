/** What every call keeps true of the disk, whether it completes or is refused, and so what holds in every run. */
module StoreInvariants {
  import opened Common
  import opened Records
  import opened Ledger
  import opened StoreModel

  // ----- The invariant -----

  ghost predicate TellsOfSnapshot(events: seq<Record>, h: Hash) {
    exists i :: 0 <= i < |events| && RecordsSnapshot(events[i], h)
  }

  /** Lineage: everyone in it exists, it ends in the electron, and it is the parent's plus the electron. */
  ghost predicate FamilyOk(d: Disk, c: Core) {
    && (forall a :: a in c.lineage && a != c.id ==> a in d.states)
    && c.generation == |c.lineage| - 1
    && (c.parent == None ==> c.lineage == [c.id])
    && (c.parent.Some? ==> c.parent.value in d.states && c.parent.value != c.id
                           && c.lineage == d.states[c.parent.value].core.lineage + [c.id])
  }

  ghost predicate BaseOk(d: Disk, c: Core) {
    c.base.Some? ==> c.base.value in d.snapshots && d.snapshots[c.base.value].id in c.lineage
  }

  ghost predicate LedgerOk(d: Disk, id: ElectronId) {
    var events := Events(d, id);
    Head(events).Some? && events != [] && events[0].Record? && events[0].kind in {GENESIS, CLONE_GENESIS}
  }

  ghost predicate ElectronOk(d: Disk, id: ElectronId)
    requires id in d.states
  {
    var c := d.states[id].core;
    && c.id == id && CheckState(d.states[id])
    && LedgerOk(d, id)
    && c.integrity == Some(Anchor(|Events(d, id)|, Head(Events(d, id)).value))
    && c.status != RUNNING && c.status != FROZEN
    && BaseOk(d, c) && FamilyOk(d, c)
  }

  ghost predicate SnapshotOk(d: Disk, h: Hash)
    requires h in d.snapshots
  {
    LoadSnapshot(d, h).Ok? && d.snapshots[h].id in d.states && TellsOfSnapshot(Events(d, d.snapshots[h].id), h)
  }

  ghost predicate Good(d: Disk) {
    && d.ledgers.Keys == d.states.Keys
    && (forall id {:trigger ElectronOk(d, id)} :: id in d.states ==> ElectronOk(d, id))
    && (forall h {:trigger SnapshotOk(d, h)} :: h in d.snapshots ==> SnapshotOk(d, h))
  }

  // ----- The net effect of a save followed by an event -----

  /** One electron's state and ledger move together: the event is appended and its anchor sealed in. */
  function Commit(d: Disk, c: Core, tick: nat, now: Timestamp, kind: Kind, payload: Payload): Disk
    requires Head(Events(d, c.id)).Some?
  {
    var events := Events(d, c.id);
    var rec := NewRecord(events, tick, now, kind, payload);
    d.(states := d.states[c.id := Seal(c.(integrity := Some(Anchor(|events| + 1, rec.hash))))],
       ledgers := d.ledgers[c.id := events + [rec]])
  }

  lemma {:induction false} HeadMeansVerified(events: seq<Record>)
    ensures Head(events).Some? <==> ChainVerdict(events).Verified?
    ensures Head(events).Some? ==> ChainVerdict(events) == Verified(|events|, Head(events).value, false)
    decreases |events|
  {
    if events != [] && Head(events[..|events| - 1]) == None {
      HeadMeansVerified(events[..|events| - 1]);
    }
  }

  lemma EventIsCommit(d: Disk, id: ElectronId, tick: nat, now: Timestamp, kind: Kind, payload: Payload)
    requires id in d.states && d.states[id].core.id == id && CheckState(d.states[id])
    requires Head(Events(d, id)).Some?
    ensures Event(d, id, tick, now, kind, payload) == Fine(Commit(d, d.states[id].core, tick, now, kind, payload))
  {
    var events := Events(d, id);
    HeadMeansVerified(events);
    var appended := Append(d, id, tick, now, kind, payload).disk;
    var rec := NewRecord(events, tick, now, kind, payload);
    assert Events(appended, id) == events + [rec];
    assert (events + [rec])[|events + [rec]| - 1] == rec;
    assert Load(appended, id) == Ok(d.states[id].core);
  }

  /** A commit overwrites whatever state its electron had. */
  lemma CommitOverwrites(d: Disk, f: StateFile, c: Core, tick: nat, now: Timestamp, kind: Kind, payload: Payload)
    requires Head(Events(d, c.id)).Some?
    ensures var d' := d.(states := d.states[c.id := f]);
            Events(d', c.id) == Events(d, c.id)
            && Commit(d', c, tick, now, kind, payload) == Commit(d, c, tick, now, kind, payload)
  {
    var x := Commit(d, c, tick, now, kind, payload).states[c.id];
    assert d.states[c.id := f][c.id := x] == d.states[c.id := x];
  }

  lemma SaveEventIsCommit(d: Disk, c: Core, tick: nat, now: Timestamp, kind: Kind, payload: Payload)
    requires ShapeOk(c) && Head(Events(d, c.id)).Some?
    ensures Save(d, c).refused == None
    ensures Event(Save(d, c).disk, c.id, tick, now, kind, payload) == Fine(Commit(d, c, tick, now, kind, payload))
  {
    CommitOverwrites(d, Seal(c), c, tick, now, kind, payload);
    EventIsCommit(Save(d, c).disk, c.id, tick, now, kind, payload);
  }

  // ----- A commit keeps the invariant -----

  predicate SameIdentity(a: Core, b: Core) {
    a.id == b.id && a.generation == b.generation && a.parent == b.parent && a.lineage == b.lineage
      && a.genesis == b.genesis
  }

  /** The disk just before the commit: the good one, with perhaps a snapshot of this electron already written. */
  ghost predicate Prepared(d: Disk, d': Disk, c: Core, kind: Kind, payload: Payload) {
    && d'.states == d.states && d'.ledgers == d.ledgers
    && (forall h :: h in d.snapshots ==> h in d'.snapshots && d'.snapshots[h] == d.snapshots[h])
    && (forall h :: h in d'.snapshots && h !in d.snapshots ==>
          kind == SNAPSHOT && payload == OfSnapshot(h) && LoadSnapshot(d', h).Ok? && d'.snapshots[h].id == c.id)
  }

  /** A core that may be committed: well formed, settled, and either the same electron or a new one in order. */
  ghost predicate Committable(d: Disk, d': Disk, c: Core, kind: Kind, payload: Payload) {
    && Prepared(d, d', c, kind, payload)
    && ShapeOk(c) && c.status != RUNNING && c.status != FROZEN && BaseOk(d', c)
    && kind != BadKind && payload != NotAnObject
    && if c.id in d.states then SameIdentity(d.states[c.id].core, c) && !d.states[c.id].core.retired
       else kind in {GENESIS, CLONE_GENESIS} && FamilyOk(d, c)
  }

  // ----- What no call ever changes -----

  /** One electron across a call: its identity stays, its ledger only grows, and nothing of it moves once retired. */
  ghost predicate KeptFor(d: Disk, later: Disk, id: ElectronId)
    requires id in d.states
  {
    && id in later.states && SameIdentity(d.states[id].core, later.states[id].core)
    && Events(d, id) <= Events(later, id)
    && (d.states[id].core.retired ==> later.states[id] == d.states[id] && Events(later, id) == Events(d, id))
  }

  ghost predicate Kept(d: Disk, later: Disk) {
    && (forall id {:trigger KeptFor(d, later, id)} :: id in d.states ==> KeptFor(d, later, id))
    && (forall h :: h in d.snapshots ==> h in later.snapshots && later.snapshots[h] == d.snapshots[h])
  }

  lemma KeptAtOnce(d: Disk)
    ensures Kept(d, d)
  {
    forall id | id in d.states
      ensures KeptFor(d, d, id)
    {
    }
  }

  lemma KeptThrough(d: Disk, mid: Disk, later: Disk)
    requires Kept(d, mid) && Kept(mid, later)
    ensures Kept(d, later)
  {
    forall id | id in d.states
      ensures KeptFor(d, later, id)
    {
      assert KeptFor(d, mid, id) && KeptFor(mid, later, id);
    }
  }

  lemma CommitKeeps(d: Disk, d': Disk, c: Core, tick: nat, now: Timestamp, kind: Kind, payload: Payload)
    requires Good(d) && Committable(d, d', c, kind, payload)
    requires Head(Events(d', c.id)).Some?
    ensures Kept(d, Commit(d', c, tick, now, kind, payload))
  {
    var after := Commit(d', c, tick, now, kind, payload);
    forall id | id in d.states
      ensures KeptFor(d, after, id)
    {
      assert Events(d', id) == Events(d, id);
      if id != c.id {
        assert Events(after, id) == Events(d, id);
      }
    }
  }

  lemma CommitsToGood(d: Disk, d': Disk, c: Core, tick: nat, now: Timestamp, kind: Kind, payload: Payload)
    requires Good(d) && Committable(d, d', c, kind, payload)
    ensures Head(Events(d', c.id)).Some?
    ensures Good(Commit(d', c, tick, now, kind, payload))
    ensures Kept(d, Commit(d', c, tick, now, kind, payload))
  {
    if c.id in d.states {
      assert ElectronOk(d, c.id);
    }
    var after := Commit(d', c, tick, now, kind, payload);
    CommittedElectronOk(d, d', c, tick, now, kind, payload);
    CommitKeeps(d, d', c, tick, now, kind, payload);
    forall id | id in after.states && id != c.id
      ensures ElectronOk(after, id)
    {
      assert ElectronOk(d, id);
      OtherElectronOk(d, d', c, tick, now, kind, payload, id);
    }
    forall h | h in after.snapshots
      ensures SnapshotOk(after, h)
    {
      SnapshotStaysOk(d, d', c, tick, now, kind, payload, h);
    }
  }

  /** The committed ledger is a chain whose length and head the committed state names. */
  lemma CommittedLedgerOk(d: Disk, c: Core, tick: nat, now: Timestamp, kind: Kind, payload: Payload)
    requires Head(Events(d, c.id)).Some? && kind != BadKind && payload != NotAnObject
    requires if Events(d, c.id) == [] then kind in {GENESIS, CLONE_GENESIS} else LedgerOk(d, c.id)
    ensures var after := Commit(d, c, tick, now, kind, payload);
            && LedgerOk(after, c.id)
            && after.states[c.id].core.integrity == Some(Anchor(|Events(after, c.id)|, Head(Events(after, c.id)).value))
  {
    var events := Events(d, c.id);
    var rec := NewRecord(events, tick, now, kind, payload);
    AppendKeepsChain(events, tick, now, kind, payload);
    assert Events(Commit(d, c, tick, now, kind, payload), c.id) == events + [rec];
    assert (events + [rec])[0] == if events == [] then rec else events[0];
  }

  lemma SealedStateOk(c: Core, a: Option<Anchor>)
    requires ShapeOk(c)
    ensures CheckState(Seal(c.(integrity := a)))
  {
  }

  lemma CommittedElectronOk(d: Disk, d': Disk, c: Core, tick: nat, now: Timestamp, kind: Kind, payload: Payload)
    requires Good(d) && Committable(d, d', c, kind, payload)
    requires Head(Events(d', c.id)).Some?
    ensures ElectronOk(Commit(d', c, tick, now, kind, payload), c.id)
  {
    LedgerBefore(d, d', c, kind, payload);
    CommittedLedgerOk(d', c, tick, now, kind, payload);
    FamilyKept(d, d', c, tick, now, kind, payload, c);
    var after := Commit(d', c, tick, now, kind, payload);
    SealedStateOk(c, after.states[c.id].core.integrity);
  }

  lemma LedgerBefore(d: Disk, d': Disk, c: Core, kind: Kind, payload: Payload)
    requires Good(d) && Committable(d, d', c, kind, payload)
    ensures if Events(d', c.id) == [] then kind in {GENESIS, CLONE_GENESIS} else LedgerOk(d', c.id)
    ensures c.id in d.states || FamilyOk(d, c)
  {
    assert Events(d', c.id) == Events(d, c.id);
    if c.id in d.states {
      assert ElectronOk(d, c.id);
    }
  }

  /** Lineages already in place are untouched by a commit. */
  lemma FamilyKept(d: Disk, d': Disk, c: Core, tick: nat, now: Timestamp, kind: Kind, payload: Payload, e: Core)
    requires Good(d) && Committable(d, d', c, kind, payload)
    requires Head(Events(d', c.id)).Some?
    requires FamilyOk(d, e) || (e == c && c.id in d.states)
    ensures FamilyOk(Commit(d', c, tick, now, kind, payload), e)
  {
    if c.id in d.states {
      assert ElectronOk(d, c.id);
    }
  }

  lemma OtherElectronOk(d: Disk, d': Disk, c: Core, tick: nat, now: Timestamp, kind: Kind, payload: Payload,
      id: ElectronId)
    requires Good(d) && Committable(d, d', c, kind, payload)
    requires Head(Events(d', c.id)).Some?
    requires id in d.states && id != c.id
    ensures ElectronOk(Commit(d', c, tick, now, kind, payload), id)
  {
    assert ElectronOk(d, id);
    var after := Commit(d', c, tick, now, kind, payload);
    assert Events(after, id) == Events(d, id) && after.states[id] == d.states[id];
    FamilyKept(d, d', c, tick, now, kind, payload, d.states[id].core);
  }

  lemma ToldStaysTold(events: seq<Record>, r: Record, h: Hash)
    requires TellsOfSnapshot(events, h) || RecordsSnapshot(r, h)
    ensures TellsOfSnapshot(events + [r], h)
  {
    if TellsOfSnapshot(events, h) {
      var i :| 0 <= i < |events| && RecordsSnapshot(events[i], h);
      assert RecordsSnapshot((events + [r])[i], h);
    } else {
      assert RecordsSnapshot((events + [r])[|events|], h);
    }
  }

  lemma SnapshotStaysOk(d: Disk, d': Disk, c: Core, tick: nat, now: Timestamp, kind: Kind, payload: Payload, h: Hash)
    requires Good(d) && Committable(d, d', c, kind, payload)
    requires Head(Events(d', c.id)).Some? && h in d'.snapshots
    ensures SnapshotOk(Commit(d', c, tick, now, kind, payload), h)
  {
    var after := Commit(d', c, tick, now, kind, payload);
    var source := d'.snapshots[h].id;
    var rec := NewRecord(Events(d', c.id), tick, now, kind, payload);
    if h in d.snapshots {
      assert SnapshotOk(d, h);
    }
    if source == c.id {
      ToldStaysTold(Events(d', source), rec, h);
    }
  }

  // ----- Every call is refused without effect or is one or more commits -----

  lemma LoadsWhole(d: Disk, id: ElectronId)
    requires Good(d) && id in d.states
    ensures Load(d, id) == Ok(d.states[id].core) && Head(Events(d, id)).Some?
  {
    assert ElectronOk(d, id);
  }

  function GenesisPayload(c: Core): Payload {
    OfGenesis(Digest(GenomeContent(c.genome)), Seal(c).seal)
  }

  lemma CreateIsCommit(d: Disk, cfg: Config, id: ElectronId, genome: Genome, now: Timestamp)
    requires Good(d) && id !in d.states && |d.states| < cfg.maxElectrons
    ensures Events(d, id) == []
    ensures var c := NewCore(id, genome, now);
            Create(d, cfg, id, genome, now) == Fine(Commit(d, c, 0, now, GENESIS, GenesisPayload(c)))
  {
    var c := NewCore(id, genome, now);
    assert Events(d, id) == [];
    SaveEventIsCommit(d, c, 0, now, GENESIS, GenesisPayload(c));
  }

  lemma CreateIsGood(d: Disk, cfg: Config, id: ElectronId, genome: Genome, now: Timestamp)
    requires Good(d) && id !in d.states
    ensures Good(Create(d, cfg, id, genome, now).disk) && Kept(d, Create(d, cfg, id, genome, now).disk)
    ensures Create(d, cfg, id, genome, now).refused == if |d.states| >= cfg.maxElectrons then Some(Quota) else None
    ensures Create(d, cfg, id, genome, now).refused.Some? ==> Create(d, cfg, id, genome, now).disk == d
  {
    if |d.states| < cfg.maxElectrons {
      var c := NewCore(id, genome, now);
      CreateIsCommit(d, cfg, id, genome, now);
      CommitsToGood(d, d, c, 0, now, GENESIS, GenesisPayload(c));
    } else {
      KeptAtOnce(d);
    }
  }

  function Frozen(d: Disk, id: ElectronId): Snapshot
    requires id in d.states
  {
    SnapshotOf(WithStatus(d.states[id].core, FROZEN))
  }

  /** The disk with the snapshot of electron id written. */
  function WithSnapshot(d: Disk, id: ElectronId): Disk
    requires id in d.states
  {
    d.(snapshots := d.snapshots[Frozen(d, id).hash := Frozen(d, id)])
  }

  function Pointed(d: Disk, id: ElectronId): Core
    requires id in d.states
  {
    d.states[id].core.(base := Some(Frozen(d, id).hash))
  }

  ghost predicate Snappable(d: Disk, id: ElectronId) {
    Good(d) && id in d.states && !d.states[id].core.retired && !d.states[id].core.suspended
  }

  lemma SnapshotIsWellFormed(d: Disk, id: ElectronId)
    requires Snappable(d, id)
    ensures LoadSnapshot(WithSnapshot(d, id), Frozen(d, id).hash) == Ok(Frozen(d, id))
    ensures Frozen(d, id).hash in d.snapshots ==>
              WithSnapshot(d, id) == d && LoadSnapshot(d, Frozen(d, id).hash) == Ok(Frozen(d, id))
  {
    assert ElectronOk(d, id);
    var snap := Frozen(d, id);
    if snap.hash in d.snapshots {
      assert SnapshotOk(d, snap.hash);
      assert d.snapshots[snap.hash] == snap;
      assert d.snapshots[snap.hash := snap] == d.snapshots;
    }
  }

  lemma SnapshotIsCommittable(d: Disk, id: ElectronId)
    requires Snappable(d, id)
    ensures Committable(d, WithSnapshot(d, id), Pointed(d, id), SNAPSHOT, OfSnapshot(Frozen(d, id).hash))
    ensures d.states[id].core.id == id && Head(Events(d, id)).Some?
  {
    assert ElectronOk(d, id);
    SnapshotIsWellFormed(d, id);
  }

  /** Saving another core of the electron right after a commit, with the anchor the commit sealed, is as if that
      core had been committed. */
  lemma ResaveIsCommit(d: Disk, c: Core, e: Core, tick: nat, now: Timestamp, kind: Kind, payload: Payload)
    requires Head(Events(d, c.id)).Some? && ShapeOk(c) && ShapeOk(e) && e.id == c.id
    ensures var told := Commit(d, c, tick, now, kind, payload);
            && Load(told, c.id) == Ok(c.(integrity := told.states[c.id].core.integrity))
            && Save(told, e.(integrity := told.states[c.id].core.integrity)) ==
               Fine(Commit(d, e, tick, now, kind, payload))
  {
    var told := Commit(d, c, tick, now, kind, payload);
    var after := Commit(d, e, tick, now, kind, payload);
    assert told.states[c.id := after.states[c.id]] == after.states;
  }

  /** A snapshot writes the frozen state and then commits its event with the electron pointing at it; the status
      it had comes back. */
  lemma SnapshotIsCommit(d: Disk, id: ElectronId, now: Timestamp)
    requires Snappable(d, id)
    ensures d.states[id].core.id == id && Head(Events(d, id)).Some?
    ensures TakeSnapshot(d, id, now) ==
            Fine(Commit(WithSnapshot(d, id), Pointed(d, id), d.states[id].core.tick, now, SNAPSHOT,
              OfSnapshot(Frozen(d, id).hash)))
  {
    assert ElectronOk(d, id);
    SnapshotIsWellFormed(d, id);
    var c := d.states[id].core;
    var snap, d' := Frozen(d, id), WithSnapshot(d, id);
    var frozen := WithStatus(c, FROZEN);
    SaveEventIsCommit(d', frozen, c.tick, now, SNAPSHOT, OfSnapshot(snap.hash));
    ResaveIsCommit(d', frozen, Pointed(d, id), c.tick, now, SNAPSHOT, OfSnapshot(snap.hash));
  }

  lemma SnapshotIsGood(d: Disk, id: ElectronId, now: Timestamp)
    requires Good(d)
    ensures Good(TakeSnapshot(d, id, now).disk) && Kept(d, TakeSnapshot(d, id, now).disk)
    ensures TakeSnapshot(d, id, now).refused ==
            if id !in d.states then Some(UnknownElectron)
            else if d.states[id].core.retired || d.states[id].core.suspended then Some(BadShape) else None
    ensures TakeSnapshot(d, id, now).refused.Some? ==> TakeSnapshot(d, id, now).disk == d
  {
    if id in d.states {
      assert ElectronOk(d, id);
      if Snappable(d, id) {
        SnapshotIsCommit(d, id, now);
        SnapshotIsCommittable(d, id);
        CommitsToGood(d, WithSnapshot(d, id), Pointed(d, id), d.states[id].core.tick, now, SNAPSHOT,
          OfSnapshot(Frozen(d, id).hash));
      }
    }
  }

  /** Why a restore would be refused: the snapshot is missing, or the electron is, or it is retired, or the snapshot
      is of no one in its lineage. */
  function RestoreObjection(d: Disk, id: ElectronId, h: Hash): Option<Refusal> {
    if h !in d.snapshots then Some(UnknownSnapshot)
    else if id !in d.states then Some(UnknownElectron)
    else if d.states[id].core.retired then Some(IsRetired)
    else if d.snapshots[h].id !in d.states[id].core.lineage then Some(NotAncestor)
    else None
  }

  /** On a consistent disk every stored snapshot reads back and its source's ledger vouches for it. */
  lemma SnapshotsAreAuthorized(d: Disk, h: Hash, lineage: seq<ElectronId>)
    requires Good(d) && h in d.snapshots
    ensures LoadSnapshot(d, h) == Ok(d.snapshots[h]) && d.snapshots[h].id == d.snapshots[h].state.core.id
    ensures Authorization(d, lineage, h, d.snapshots[h].id) ==
            if d.snapshots[h].id in lineage then None else Some(NotAncestor)
  {
    assert SnapshotOk(d, h);
    var source := d.snapshots[h].id;
    assert source in d.states;
    assert ElectronOk(d, source);
    HeadMeansVerified(Events(d, source));
  }

  function RestoredCore(d: Disk, id: ElectronId, h: Hash): Core
    requires id in d.states && h in d.snapshots
  {
    Restored(d.snapshots[h].state.core, d.states[id].core, h)
  }

  lemma RestoreIsCommit(d: Disk, id: ElectronId, h: Hash, now: Timestamp)
    requires Good(d) && RestoreObjection(d, id, h) == None
    ensures d.states[id].core.id == id && Head(Events(d, id)).Some?
    ensures var c := RestoredCore(d, id, h);
            && Restore(d, id, h, now) == Fine(Commit(d, c, c.tick, now, RESTORE, OfRestore(h, false)))
            && Committable(d, d, c, RESTORE, OfRestore(h, false))
  {
    assert ElectronOk(d, id);
    SnapshotsAreAuthorized(d, h, d.states[id].core.lineage);
    var c := RestoredCore(d, id, h);
    SaveEventIsCommit(d, c, c.tick, now, RESTORE, OfRestore(h, false));
  }

  lemma RestoreRefuses(d: Disk, id: ElectronId, h: Hash, now: Timestamp)
    requires Good(d) && RestoreObjection(d, id, h).Some?
    ensures Restore(d, id, h, now) == Refuse(d, RestoreObjection(d, id, h).value)
  {
    if h in d.snapshots {
      SnapshotsAreAuthorized(d, h, if id in d.states then d.states[id].core.lineage else []);
      if id in d.states {
        LoadsWhole(d, id);
      }
    }
  }

  lemma RestoreIsGood(d: Disk, id: ElectronId, h: Hash, now: Timestamp)
    requires Good(d)
    ensures Good(Restore(d, id, h, now).disk) && Kept(d, Restore(d, id, h, now).disk)
    ensures Restore(d, id, h, now).refused == RestoreObjection(d, id, h)
    ensures Restore(d, id, h, now).refused.Some? ==> Restore(d, id, h, now).disk == d
  {
    if RestoreObjection(d, id, h) == None {
      RestoreIsCommit(d, id, h, now);
      var c := RestoredCore(d, id, h);
      CommitsToGood(d, d, c, c.tick, now, RESTORE, OfRestore(h, false));
    } else {
      RestoreRefuses(d, id, h, now);
      KeptAtOnce(d);
    }
  }

  function SuspendedCore(c: Core, value: bool): Core {
    WithStatus(c.(suspended := value), if value then SUSPENDED else READY)
  }

  function SuspendObjection(d: Disk, id: ElectronId, value: bool): Option<Refusal> {
    if id !in d.states then Some(UnknownElectron)
    else if d.states[id].core.retired then Some(IsRetired)
    else if d.states[id].core.suspended == value then Some(AlreadySo)
    else None
  }

  lemma SuspendIsCommit(d: Disk, id: ElectronId, value: bool, now: Timestamp)
    requires Good(d) && SuspendObjection(d, id, value) == None
    ensures d.states[id].core.id == id && Head(Events(d, id)).Some?
    ensures var c, kind := SuspendedCore(d.states[id].core, value), if value then SUSPEND else RESUME;
            && SetSuspended(d, id, value, now) == Fine(Commit(d, c, c.tick, now, kind, Nothing))
            && Committable(d, d, c, kind, Nothing)
  {
    assert ElectronOk(d, id);
    var c := SuspendedCore(d.states[id].core, value);
    SaveEventIsCommit(d, c, c.tick, now, if value then SUSPEND else RESUME, Nothing);
  }

  lemma SuspendIsGood(d: Disk, id: ElectronId, value: bool, now: Timestamp)
    requires Good(d)
    ensures Good(SetSuspended(d, id, value, now).disk) && Kept(d, SetSuspended(d, id, value, now).disk)
    ensures SetSuspended(d, id, value, now).refused == SuspendObjection(d, id, value)
    ensures SetSuspended(d, id, value, now).refused.Some? ==> SetSuspended(d, id, value, now).disk == d
  {
    if SuspendObjection(d, id, value) == None {
      SuspendIsCommit(d, id, value, now);
      var c := SuspendedCore(d.states[id].core, value);
      CommitsToGood(d, d, c, c.tick, now, if value then SUSPEND else RESUME, Nothing);
    } else {
      if id in d.states {
        LoadsWhole(d, id);
      }
      KeptAtOnce(d);
    }
  }

  function RetireObjection(d: Disk, id: ElectronId): Option<Refusal> {
    if id !in d.states then Some(UnknownElectron) else if d.states[id].core.retired then Some(IsRetired) else None
  }

  function RetiredCore(c: Core): Core {
    WithStatus(c.(retired := true), RETIRED)
  }

  lemma RetireIsCommit(d: Disk, id: ElectronId, now: Timestamp)
    requires Good(d) && RetireObjection(d, id) == None
    ensures d.states[id].core.id == id && Head(Events(d, id)).Some?
    ensures var c := RetiredCore(d.states[id].core);
            && Retire(d, id, now) == Fine(Commit(d, c, c.tick, now, Kind.RETIRE, Nothing))
            && Committable(d, d, c, Kind.RETIRE, Nothing)
  {
    assert ElectronOk(d, id);
    var c := RetiredCore(d.states[id].core);
    SaveEventIsCommit(d, c, c.tick, now, Kind.RETIRE, Nothing);
  }

  lemma RetireIsGood(d: Disk, id: ElectronId, now: Timestamp)
    requires Good(d)
    ensures Good(Retire(d, id, now).disk) && Kept(d, Retire(d, id, now).disk)
    ensures Retire(d, id, now).refused == RetireObjection(d, id)
    ensures Retire(d, id, now).refused.Some? ==> Retire(d, id, now).disk == d
  {
    if RetireObjection(d, id) == None {
      RetireIsCommit(d, id, now);
      var c := RetiredCore(d.states[id].core);
      CommitsToGood(d, d, c, c.tick, now, Kind.RETIRE, Nothing);
    } else {
      if id in d.states {
        LoadsWhole(d, id);
      }
      KeptAtOnce(d);
    }
  }

  // ----- Fork -----

  lemma SnapshotKeepsOthers(d: Disk, id: ElectronId, now: Timestamp, other: ElectronId)
    requires Snappable(d, id) && other !in d.states
    ensures other !in TakeSnapshot(d, id, now).disk.states
    ensures var after := TakeSnapshot(d, id, now).disk;
            && id in after.states && SameIdentity(d.states[id].core, after.states[id].core)
            && Frozen(d, id).hash in after.snapshots && after.snapshots[Frozen(d, id).hash] == Frozen(d, id)
            && after.states.Keys == d.states.Keys && after.receipts == d.receipts
  {
    assert ElectronOk(d, id);
    SnapshotIsCommit(d, id, now);
  }

  function Child(d: Disk, id: ElectronId, child: ElectronId, now: Timestamp): Core
    requires id in d.states
  {
    ChildOf(d.states[id].core, WithStatus(d.states[id].core, FROZEN), child, Frozen(d, id).hash, now)
  }

  /** A child of a well-formed parent is well formed, whatever fresh id it gets. */
  lemma ChildShape(parent: Core, child: ElectronId, h: Hash, now: Timestamp)
    requires NoRepeats(parent.lineage) && child !in parent.lineage && !parent.retired
    ensures ShapeOk(ChildOf(parent, WithStatus(parent, FROZEN), child, h, now))
  {
  }

  lemma ChildFamily(d: Disk, parent: Core, child: ElectronId, h: Hash, now: Timestamp)
    requires parent.id in d.states && child != parent.id && parent.lineage == d.states[parent.id].core.lineage
    requires forall a :: a in parent.lineage ==> a in d.states
    requires parent.generation == |parent.lineage| - 1
    ensures FamilyOk(d, ChildOf(parent, WithStatus(parent, FROZEN), child, h, now))
  {
  }

  lemma ChildIsCommittable(d: Disk, id: ElectronId, child: ElectronId, now: Timestamp)
    requires Snappable(d, id) && child !in d.states
    ensures var d1 := TakeSnapshot(d, id, now).disk;
            && Good(d1)
            && Committable(d1, d1, Child(d, id, child, now), CLONE_GENESIS, OfClone(id, Frozen(d, id).hash))
  {
    assert ElectronOk(d, id);
    SnapshotIsGood(d, id, now);
    SnapshotKeepsOthers(d, id, now, child);
    var d1 := TakeSnapshot(d, id, now).disk;
    assert ElectronOk(d1, id);
    var parent := d.states[id].core;
    assert forall a :: a in parent.lineage ==> a in d1.states;
    ChildShape(parent, child, Frozen(d, id).hash, now);
    ChildFamily(d1, parent, child, Frozen(d, id).hash, now);
    assert id in Child(d, id, child, now).lineage;
  }

  /** The disk once the child of a fork is born and the parent not yet told. */
  function Born(d: Disk, id: ElectronId, child: ElectronId, now: Timestamp): Disk
    requires id in d.states && Head(Events(TakeSnapshot(d, id, now).disk, child)).Some?
  {
    var c := Child(d, id, child, now);
    Commit(TakeSnapshot(d, id, now).disk, c, c.tick, now, CLONE_GENESIS, OfClone(id, Frozen(d, id).hash))
  }

  lemma BirthIsGood(d: Disk, id: ElectronId, child: ElectronId, now: Timestamp)
    requires Snappable(d, id) && child !in d.states
    ensures Events(TakeSnapshot(d, id, now).disk, child) == []
    ensures Good(Born(d, id, child, now)) && Kept(d, Born(d, id, child, now))
  {
    SnapshotIsGood(d, id, now);
    SnapshotKeepsOthers(d, id, now, child);
    ChildIsCommittable(d, id, child, now);
    var d1 := TakeSnapshot(d, id, now).disk;
    var c, h := Child(d, id, child, now), Frozen(d, id).hash;
    CommitsToGood(d1, d1, c, c.tick, now, CLONE_GENESIS, OfClone(id, h));
    KeptThrough(d, d1, Born(d, id, child, now));
  }

  lemma BirthKeepsParent(d: Disk, id: ElectronId, child: ElectronId, now: Timestamp)
    requires Snappable(d, id) && child !in d.states
    ensures Events(TakeSnapshot(d, id, now).disk, child) == []
    ensures var d2 := Born(d, id, child, now);
            && Good(d2) && id in d2.states && d2.states[id].core.id == id && !d2.states[id].core.retired
            && CheckState(d2.states[id]) && Head(Events(d2, id)).Some?
  {
    BirthIsGood(d, id, child, now);
    SnapshotKeepsOthers(d, id, now, child);
    SnapshotKeepsRetirement(d, id, now);
    var d2 := Born(d, id, child, now);
    assert d2.states[id] == TakeSnapshot(d, id, now).disk.states[id];
    assert ElectronOk(d2, id);
  }

  lemma SnapshotKeepsRetirement(d: Disk, id: ElectronId, now: Timestamp)
    requires Snappable(d, id)
    ensures var after := TakeSnapshot(d, id, now).disk;
            id in after.states && !after.states[id].core.retired
  {
    SnapshotIsCommit(d, id, now);
  }

  /** A fork is a snapshot of the parent, the child's first commit, and a commit that tells the parent. */
  lemma ForkIsCommits(d: Disk, cfg: Config, id: ElectronId, child: ElectronId, now: Timestamp)
    requires Snappable(d, id) && child !in d.states && Operable(d.states[id].core) && |d.states| < cfg.maxElectrons
    ensures Events(TakeSnapshot(d, id, now).disk, child) == []
    ensures var d2 := Born(d, id, child, now);
            && id in d2.states && d2.states[id].core.id == id && Head(Events(d2, id)).Some?
            && Fork(d, cfg, id, child, now) ==
               Fine(Commit(d2, d2.states[id].core, d.states[id].core.tick, now, FORK,
                 OfFork(child, Frozen(d, id).hash)))
  {
    LoadsWhole(d, id);
    SnapshotIsGood(d, id, now);
    SnapshotKeepsOthers(d, id, now, child);
    ChildIsShaped(d, id, child, now);
    BirthKeepsParent(d, id, child, now);
    var c, h := Child(d, id, child, now), Frozen(d, id).hash;
    SaveEventIsCommit(TakeSnapshot(d, id, now).disk, c, c.tick, now, CLONE_GENESIS, OfClone(id, h));
    EventIsCommit(Born(d, id, child, now), id, d.states[id].core.tick, now, FORK, OfFork(child, h));
  }

  lemma ChildIsShaped(d: Disk, id: ElectronId, child: ElectronId, now: Timestamp)
    requires Snappable(d, id) && child !in d.states
    ensures ShapeOk(Child(d, id, child, now)) && Child(d, id, child, now).id == child
  {
    ChildIsCommittable(d, id, child, now);
  }

  lemma SnapshotKeepsIds(d: Disk, id: ElectronId, now: Timestamp)
    requires Snappable(d, id)
    ensures TakeSnapshot(d, id, now).disk.states.Keys == d.states.Keys
  {
    assert ElectronOk(d, id);
    SnapshotIsCommit(d, id, now);
  }

  lemma ForkBornIsGood(d: Disk, cfg: Config, id: ElectronId, child: ElectronId, now: Timestamp)
    requires Snappable(d, id) && child !in d.states && Operable(d.states[id].core) && |d.states| < cfg.maxElectrons
    ensures Good(Fork(d, cfg, id, child, now).disk) && Kept(d, Fork(d, cfg, id, child, now).disk)
    ensures Fork(d, cfg, id, child, now).refused == None
  {
    BirthIsGood(d, id, child, now);
    BirthKeepsParent(d, id, child, now);
    ForkIsCommits(d, cfg, id, child, now);
    TellingIsGood(d, Born(d, id, child, now), id, d.states[id].core.tick, now, FORK, OfFork(child, Frozen(d, id).hash));
  }

  /** An event on an electron that was there and not retired, with no change to its state beyond the anchor. */
  lemma TellingIsGood(d: Disk, d2: Disk, id: ElectronId, tick: nat, now: Timestamp, kind: Kind, payload: Payload)
    requires Good(d) && Good(d2) && Kept(d, d2)
    requires id in d2.states && d2.states[id].core.id == id && !d2.states[id].core.retired && Head(Events(d2, id)).Some?
    requires kind != BadKind && payload != NotAnObject
    ensures var after := Commit(d2, d2.states[id].core, tick, now, kind, payload);
            Good(after) && Kept(d, after)
  {
    assert ElectronOk(d2, id);
    CommitsToGood(d2, d2, d2.states[id].core, tick, now, kind, payload);
    KeptThrough(d, d2, Commit(d2, d2.states[id].core, tick, now, kind, payload));
  }

  lemma ForkIsGood(d: Disk, cfg: Config, id: ElectronId, child: ElectronId, now: Timestamp)
    requires Good(d)
    ensures Good(Fork(d, cfg, id, child, now).disk) && Kept(d, Fork(d, cfg, id, child, now).disk)
    ensures Fork(d, cfg, id, child, now).refused ==
            if id !in d.states then Some(UnknownElectron)
            else if !Operable(d.states[id].core) then Some(NotOperable)
            else if |d.states| >= cfg.maxElectrons then Some(Quota)
            else if child in d.states then Some(NoFreshId) else None
  {
    if id in d.states {
      assert ElectronOk(d, id);
      if Operable(d.states[id].core) && |d.states| < cfg.maxElectrons {
        SnapshotIsGood(d, id, now);
        if child in d.states {
          SnapshotKeepsIds(d, id, now);
        } else {
          ForkBornIsGood(d, cfg, id, child, now);
        }
      }
    }
  }

  // ----- Recording an execution -----

  /** A fault is a commit of the faulted state, whatever running state it overwrites. */
  lemma FaultIsCommit(d: Disk, c: Core, tick: nat, now: Timestamp, kind: Kind, reason: string)
    requires ShapeOk(c) && Head(Events(d, c.id)).Some? && !c.retired && !c.suspended
    ensures var running := d.(states := d.states[c.id := Seal(c)]);
            FaultWith(running, c.id, tick, now, kind, reason) ==
            Refuse(Commit(d, WithStatus(c, FAULTED), tick, now, kind, OfRejection(reason)), ExecutionRefused)
  {
    var running := d.(states := d.states[c.id := Seal(c)]);
    var faulted := WithStatus(c, FAULTED);
    CommitOverwrites(d, Seal(c), faulted, tick, now, kind, OfRejection(reason));
    SaveEventIsCommit(running, faulted, tick, now, kind, OfRejection(reason));
  }

  predicate Started(d: Disk, cfg: Config, id: ElectronId) {
    id in d.states && Operable(d.states[id].core) && !AtQuota(d, cfg, id)
  }

  /** The running state an execution saves first. */
  function RunningCore(d: Disk, id: ElectronId): Core
    requires id in d.states
  {
    WithStatus(d.states[id].core.(tick := d.states[id].core.tick + 1), RUNNING)
  }

  /** The disk an execution commits on: its receipt is already written if it got that far. */
  function AtCommit(d: Disk, cfg: Config, id: ElectronId, e: Execution): Disk
    requires id in d.states
  {
    if Objection(cfg, e) == None then WithReceipt(d, id, RunningCore(d, id).tick, e) else d
  }

  predicate Accepted(cfg: Config, e: Execution) {
    Objection(cfg, e) == None && e.crash != AfterReceipt
  }

  datatype Closing = Closing(core: Core, kind: Kind, payload: Payload)

  /** What an execution commits: a verified state with its receipt, or a faulted one with the reason. */
  function Ending(d: Disk, cfg: Config, id: ElectronId, e: Execution): Closing
    requires id in d.states
  {
    var c := RunningCore(d, id);
    match Objection(cfg, e)
    case Some(o) => Closing(WithStatus(c, FAULTED), o.kind, OfRejection(o.reason))
    case None =>
      if e.crash == AfterReceipt then Closing(WithStatus(c, FAULTED), EXECUTION_ERROR, OfRejection("error"))
      else Closing(Advanced(c, ReceiptPath(c.id, c.tick), e), EXECUTION_VERIFIED, ReceiptPayload(c, e))
  }

  function ReceiptPayload(c: Core, e: Execution): Payload {
    OfReceipt(ReceiptPath(c.id, c.tick), Digest(ReceiptContent(Receipt(c.id, c.tick, e.eventLog, e.detail))),
      e.eventLog)
  }

  lemma CompletionIsCommit(d: Disk, c: Core, e: Execution, now: Timestamp)
    requires ShapeOk(c) && Head(Events(d, c.id)).Some? && !c.retired && !c.suspended && e.crash != AfterReceipt
    ensures var filed := WithReceipt(d, c.id, c.tick, e);
            && Head(Events(filed, c.id)).Some?
            && Complete(d.(states := d.states[c.id := Seal(c)]), c.id, c.tick, e, now) ==
               Fine(Commit(filed, Advanced(c, ReceiptPath(c.id, c.tick), e), c.tick, now, EXECUTION_VERIFIED,
                 ReceiptPayload(c, e)))
  {
    var running := WithReceipt(d.(states := d.states[c.id := Seal(c)]), c.id, c.tick, e);
    var filed := WithReceipt(d, c.id, c.tick, e);
    var done := Advanced(c, ReceiptPath(c.id, c.tick), e);
    assert Events(running, c.id) == Events(d, c.id) == Events(filed, c.id);
    assert Load(running, c.id) == Ok(c);
    assert running == filed.(states := filed.states[c.id := Seal(c)]);
    CommitOverwrites(filed, Seal(c), done, c.tick, now, EXECUTION_VERIFIED, ReceiptPayload(c, e));
    SaveEventIsCommit(running, done, c.tick, now, EXECUTION_VERIFIED, ReceiptPayload(c, e));
  }

  lemma CrashIsCommit(d: Disk, c: Core, e: Execution, now: Timestamp)
    requires ShapeOk(c) && Head(Events(d, c.id)).Some? && !c.retired && !c.suspended && e.crash == AfterReceipt
    ensures var filed := WithReceipt(d, c.id, c.tick, e);
            && Head(Events(filed, c.id)).Some?
            && Complete(d.(states := d.states[c.id := Seal(c)]), c.id, c.tick, e, now) ==
               Refuse(Commit(filed, WithStatus(c, FAULTED), c.tick, now, EXECUTION_ERROR, OfRejection("error")),
                 ExecutionRefused)
  {
    var filed := WithReceipt(d, c.id, c.tick, e);
    assert Events(filed, c.id) == Events(d, c.id);
    FaultIsCommit(filed, c, c.tick, now, EXECUTION_ERROR, "error");
  }

  lemma RunningIsShaped(d: Disk, cfg: Config, id: ElectronId)
    requires Good(d) && Started(d, cfg, id)
    ensures var c := RunningCore(d, id);
            && c.id == id && ShapeOk(c) && !c.retired && !c.suspended && Head(Events(d, id)).Some?
  {
    assert ElectronOk(d, id);
  }

  lemma RunningIsSaved(d: Disk, cfg: Config, id: ElectronId)
    requires Good(d) && Started(d, cfg, id)
    ensures Save(d, RunningCore(d, id)) == Fine(d.(states := d.states[id := Seal(RunningCore(d, id))]))
    ensures RunningCore(d, id).id == id && RunningCore(d, id).tick == d.states[id].core.tick + 1
  {
    RunningIsShaped(d, cfg, id);
  }

  lemma RecordStarts(d: Disk, cfg: Config, id: ElectronId, e: Execution, now: Timestamp)
    requires Good(d) && Started(d, cfg, id)
    ensures var c := RunningCore(d, id);
            RecordExecution(d, cfg, id, e, now) ==
              Judged(d.(states := d.states[id := Seal(c)]), cfg, id, c.tick, e, now)
  {
    RunningIsSaved(d, cfg, id);
    LoadsWhole(d, id);
  }

  lemma RecordIsCommit(d: Disk, cfg: Config, id: ElectronId, e: Execution, now: Timestamp)
    requires Good(d) && Started(d, cfg, id)
    ensures var end := Ending(d, cfg, id, e);
            && end.core.id == id && Head(Events(AtCommit(d, cfg, id, e), end.core.id)).Some?
            && RecordExecution(d, cfg, id, e, now) ==
               Outcome(Commit(AtCommit(d, cfg, id, e), end.core, end.core.tick, now, end.kind, end.payload),
                       if Accepted(cfg, e) then None else Some(ExecutionRefused))
  {
    RunningIsShaped(d, cfg, id);
    RecordStarts(d, cfg, id, e, now);
    var c := RunningCore(d, id);
    if Objection(cfg, e).Some? {
      FaultIsCommit(d, c, c.tick, now, Objection(cfg, e).value.kind, Objection(cfg, e).value.reason);
    } else if e.crash == AfterReceipt {
      CrashIsCommit(d, c, e, now);
    } else {
      CompletionIsCommit(d, c, e, now);
    }
  }

  lemma EndingIsShaped(d: Disk, cfg: Config, id: ElectronId, e: Execution)
    requires Good(d) && Started(d, cfg, id)
    ensures var end := Ending(d, cfg, id, e);
            && ShapeOk(end.core) && end.core.status in {FAULTED, VERIFIED} && !end.core.retired
            && SameIdentity(d.states[id].core, end.core) && end.core.base == d.states[id].core.base
            && end.core.id == id && end.core.tick == d.states[id].core.tick + 1
            && end.kind in {EXECUTION_REJECTED, REPLAY_REJECTED, EXECUTION_ERROR, EXECUTION_VERIFIED}
            && (end.payload.OfRejection? || end.payload.OfReceipt?)
  {
    RunningIsShaped(d, cfg, id);
  }

  lemma EndingIsCommittable(d: Disk, cfg: Config, id: ElectronId, e: Execution)
    requires Good(d) && Started(d, cfg, id)
    ensures var end := Ending(d, cfg, id, e);
            Committable(d, AtCommit(d, cfg, id, e), end.core, end.kind, end.payload)
  {
    assert ElectronOk(d, id);
    EndingIsShaped(d, cfg, id, e);
  }

  /** Why recording an execution would be refused before it starts. */
  function StartObjection(d: Disk, cfg: Config, id: ElectronId): Option<Refusal> {
    if id !in d.states then Some(UnknownElectron)
    else if !Operable(d.states[id].core) then Some(NotOperable)
    else if AtQuota(d, cfg, id) then Some(Quota)
    else None
  }

  lemma RecordIsGood(d: Disk, cfg: Config, id: ElectronId, e: Execution, now: Timestamp)
    requires Good(d)
    ensures Good(RecordExecution(d, cfg, id, e, now).disk) && Kept(d, RecordExecution(d, cfg, id, e, now).disk)
    ensures RecordExecution(d, cfg, id, e, now).refused ==
            if StartObjection(d, cfg, id).Some? then StartObjection(d, cfg, id)
            else if Accepted(cfg, e) then None else Some(ExecutionRefused)
    ensures StartObjection(d, cfg, id).Some? ==> RecordExecution(d, cfg, id, e, now).disk == d
  {
    if Started(d, cfg, id) {
      RecordIsCommit(d, cfg, id, e, now);
      EndingIsCommittable(d, cfg, id, e);
      var end := Ending(d, cfg, id, e);
      CommitsToGood(d, AtCommit(d, cfg, id, e), end.core, end.core.tick, now, end.kind, end.payload);
    } else {
      if id in d.states {
        LoadsWhole(d, id);
      }
      KeptAtOnce(d);
    }
  }

  // ----- Runs -----

  lemma CallIsGood(d: Disk, cfg: Config, call: Call)
    requires Good(d) && IsFresh(d, call)
    ensures Good(Do(d, cfg, call).disk) && Kept(d, Do(d, cfg, call).disk)
  {
    match call
    case DoCreate(id, genome, now) => CreateIsGood(d, cfg, id, genome, now);
    case DoSnapshot(id, now) => SnapshotIsGood(d, id, now);
    case DoFork(id, child, now) => ForkIsGood(d, cfg, id, child, now);
    case DoRestore(id, h, now) => RestoreIsGood(d, id, h, now);
    case DoSuspend(id, value, now) => SuspendIsGood(d, id, value, now);
    case DoRetire(id, now) => RetireIsGood(d, id, now);
    case DoRecord(id, e, now) => RecordIsGood(d, cfg, id, e, now);
  }

  lemma FreshPrefix(step: (Disk, Call) -> Disk, calls: seq<Call>, k: nat)
    requires AllFresh(step, calls) && k <= |calls|
    ensures AllFresh(step, calls[..k])
  {
    var before := calls[..k];
    forall i | 0 <= i < |before|
      ensures FreshAt(step, before, i)
    {
      assert FreshAt(step, calls, i);
      assert before[..i] == calls[..i] && before[i] == calls[i];
    }
  }

  lemma EmptyIsGood()
    ensures Good(EMPTY)
  {
  }

  /** A property that every fresh call keeps. */
  ghost predicate EachKeeps(step: (Disk, Call) -> Disk, holds: Disk -> bool, may: Call -> bool) {
    forall d, call {:trigger step(d, call)} :: holds(d) && IsFresh(d, call) && may(call) ==> holds(step(d, call))
  }

  lemma {:induction false} RunHolds(step: (Disk, Call) -> Disk, holds: Disk -> bool, may: Call -> bool,
      calls: seq<Call>)
    requires holds(EMPTY) && EachKeeps(step, holds, may)
    requires AllFresh(step, calls) && forall i :: 0 <= i < |calls| ==> may(calls[i])
    ensures holds(Run(step, calls))
    decreases |calls|
  {
    if calls != [] {
      var n := |calls| - 1;
      FreshPrefix(step, calls, n);
      RunHolds(step, holds, may, calls[..n]);
      assert FreshAt(step, calls, n);
    }
  }

  lemma RunIsGood(cfg: Config, calls: seq<Call>)
    requires FreshIds(cfg, calls)
    ensures Good(After(cfg, calls))
  {
    EmptyIsGood();
    forall d, call | Good(d) && IsFresh(d, call)
      ensures Good(Doing(cfg)(d, call))
    {
      CallIsGood(d, cfg, call);
    }
    RunHolds(Doing(cfg), d => Good(d), call => true, calls);
  }

  /** Each fresh call on a good disk keeps what was there. */
  ghost predicate EachPreserves(step: (Disk, Call) -> Disk) {
    forall d, call {:trigger step(d, call)} :: Good(d) && IsFresh(d, call) ==>
      Good(step(d, call)) && Kept(d, step(d, call))
  }

  lemma {:induction false} RunPreserves(step: (Disk, Call) -> Disk, calls: seq<Call>, k: nat)
    requires EachPreserves(step) && AllFresh(step, calls) && k <= |calls|
    ensures Good(Run(step, calls)) && Kept(Run(step, calls[..k]), Run(step, calls))
    decreases |calls|
  {
    if calls == [] {
      EmptyIsGood();
    } else {
      var n := |calls| - 1;
      FreshPrefix(step, calls, n);
      RunPreserves(step, calls[..n], if k <= n then k else n);
      assert FreshAt(step, calls, n);
      if k <= n {
        assert calls[..n][..k] == calls[..k];
        KeptThrough(Run(step, calls[..k]), Run(step, calls[..n]), Run(step, calls));
      }
    }
    if k == |calls| {
      assert calls[..k] == calls;
      KeptAtOnce(Run(step, calls));
    }
  }

  /** From any point of a run on: identities stay, ledgers only grow, snapshots never change. */
  lemma RunKeeps(cfg: Config, calls: seq<Call>, k: nat)
    requires FreshIds(cfg, calls) && k <= |calls|
    ensures Kept(After(cfg, calls[..k]), After(cfg, calls))
  {
    forall d, call | Good(d) && IsFresh(d, call)
      ensures Good(Doing(cfg)(d, call)) && Kept(d, Doing(cfg)(d, call))
    {
      CallIsGood(d, cfg, call);
    }
    RunPreserves(Doing(cfg), calls, k);
  }

  /** Once an electron is retired nothing later in the run, of any kind, touches its state or its ledger. */
  lemma RetirementIsTerminal(cfg: Config, calls: seq<Call>, k: nat, id: ElectronId)
    requires FreshIds(cfg, calls) && k <= |calls|
    requires id in After(cfg, calls[..k]).states && After(cfg, calls[..k]).states[id].core.retired
    ensures var then_, now_ := After(cfg, calls[..k]), After(cfg, calls);
            id in now_.states && now_.states[id] == then_.states[id] && Events(now_, id) == Events(then_, id)
  {
    RunKeeps(cfg, calls, k);
    assert KeptFor(After(cfg, calls[..k]), After(cfg, calls), id);
  }

  /** No call ever changes who an electron is: not even a restore alters its lineage, parent, generation or genesis. */
  lemma IdentityIsForever(cfg: Config, calls: seq<Call>, k: nat, id: ElectronId)
    requires FreshIds(cfg, calls) && k <= |calls| && id in After(cfg, calls[..k]).states
    ensures id in After(cfg, calls).states
    ensures SameIdentity(After(cfg, calls[..k]).states[id].core, After(cfg, calls).states[id].core)
    ensures Events(After(cfg, calls[..k]), id) <= Events(After(cfg, calls), id)
  {
    RunKeeps(cfg, calls, k);
    assert KeptFor(After(cfg, calls[..k]), After(cfg, calls), id);
  }

  lemma GoodPassesAudit(d: Disk, id: ElectronId)
    requires Good(d) && id in d.states
    ensures StateAudit(d, id) && LedgerAudit(d, id) && AnchorAudit(d, id) && BaseAudit(d, id)
    ensures d.states[id].core.status != RUNNING
  {
    assert ElectronOk(d, id);
    HeadMeansVerified(Events(d, id));
    var c := d.states[id].core;
    if c.base.Some? {
      assert SnapshotOk(d, c.base.value);
      var source := d.snapshots[c.base.value].id;
      assert source in d.states;
      assert ElectronOk(d, source);
      HeadMeansVerified(Events(d, source));
    }
  }

  /** After every run of calls, completed and refused alike, every electron passes the audit's state, ledger,
      ledger-semantics, anchor and base-snapshot checks, and none is left running. */
  lemma EveryRunPassesAudit(cfg: Config, calls: seq<Call>, id: ElectronId)
    requires FreshIds(cfg, calls) && id in After(cfg, calls).states
    ensures var d := After(cfg, calls);
            StateAudit(d, id) && LedgerAudit(d, id) && AnchorAudit(d, id) && BaseAudit(d, id)
    ensures After(cfg, calls).states[id].core.status != RUNNING
  {
    RunIsGood(cfg, calls);
    GoodPassesAudit(After(cfg, calls), id);
  }

  /** In every run lineages have no repeats, end in the electron, count the generation, and extend the parent's. */
  lemma EveryRunHasLineageForest(cfg: Config, calls: seq<Call>, id: ElectronId)
    requires FreshIds(cfg, calls) && id in After(cfg, calls).states
    ensures var d := After(cfg, calls);
            var c := d.states[id].core;
            && NoRepeats(c.lineage) && c.lineage != [] && c.lineage[|c.lineage| - 1] == id
            && c.generation == |c.lineage| - 1
            && (forall a :: a in c.lineage ==> a in d.states)
            && (if c.parent == None then c.lineage == [id]
                else c.parent.value in d.states && c.lineage == d.states[c.parent.value].core.lineage + [id])
  {
    RunIsGood(cfg, calls);
    assert ElectronOk(After(cfg, calls), id);
  }
}
