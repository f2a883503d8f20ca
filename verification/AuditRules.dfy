/** What the audit's checks say of an electron, field by field, and when a receipt still stands. */
module AuditRules {
  import opened Common
  import opened Records
  import opened Ledger
  import opened LedgerRules
  import opened StoreModel
  import opened StoreInvariants

  ghost predicate WholeChain(events: seq<Record>) {
    forall i :: 0 <= i < |events| ==> InChain(events, i)
  }

  lemma ChainIsWhole(events: seq<Record>)
    ensures ChainVerdict(events).Verified? <==> WholeChain(events)
    ensures WholeChain(events) ==> ChainVerdict(events) == Verified(|events|, LastOf(events), false)
  {
    ChainExactly(events);
    VerdictIsHead(events);
  }

  /** The state file names the electron, is in order, and is sealed over what it says. */
  lemma StateExactly(d: Disk, id: ElectronId)
    requires id in d.states
    ensures var f, c := d.states[id], d.states[id].core;
            StateAudit(d, id) <==>
            && c.id == id && c.lineage != [] && c.lineage[|c.lineage| - 1] == id
            && (forall i, j :: 0 <= i < j < |c.lineage| ==> c.lineage[i] != c.lineage[j])
            && c.properties.state == c.status
            && (c.retired ==> c.status == RETIRED) && (c.suspended && !c.retired ==> c.status == SUSPENDED)
            && f.seal == Digest(StateContent(c)) && f.genomeSeal == Digest(GenomeContent(c.genome))
  {
  }

  /** The ledger is a whole chain that starts with a birth, and the state names its length and head. */
  lemma LedgerExactly(d: Disk, id: ElectronId)
    requires id in d.states
    ensures var events := Events(d, id);
            LedgerAudit(d, id) && AnchorAudit(d, id) <==>
            && WholeChain(events) && events != [] && events[0].Record? && events[0].kind in {GENESIS, CLONE_GENESIS}
            && d.states[id].core.integrity == Some(Anchor(|events|, LastOf(events)))
  {
    ChainIsWhole(Events(d, id));
  }

  /** The file under the hash is what the hash was taken of, and is itself a sealed state in order. */
  predicate SnapshotStands(d: Disk, h: Hash) {
    && h in d.snapshots
    && var s := d.snapshots[h];
       s.hash == h && h == Digest(SealedContent(s.state)) && s.id == s.state.core.id
       && s.generation == s.state.core.generation && CheckState(s.state)
  }

  ghost predicate TellsOf(events: seq<Record>, h: Hash) {
    exists i :: 0 <= i < |events| && events[i].Record? && events[i].kind == SNAPSHOT
      && events[i].payload == OfSnapshot(h)
  }

  /** The base snapshot, if there is one, stands, is of someone in the lineage, and that one's whole ledger tells of
      it. */
  lemma BaseExactly(d: Disk, id: ElectronId)
    requires id in d.states
    ensures BaseAudit(d, id) <==>
            match d.states[id].core.base
            case None => true
            case Some(h) =>
              && SnapshotStands(d, h) && d.snapshots[h].id in d.states[id].core.lineage
              && WholeChain(Events(d, d.snapshots[h].id)) && TellsOf(Events(d, d.snapshots[h].id), h)
  {
    var c := d.states[id].core;
    if c.base.Some? {
      var h := c.base.value;
      assert LoadSnapshot(d, h).Ok? <==> SnapshotStands(d, h);
      if SnapshotStands(d, h) {
        var events := Events(d, d.snapshots[h].id);
        ChainIsWhole(events);
        assert TellsOf(events, h) <==> exists i :: 0 <= i < |events| && RecordsSnapshot(events[i], h);
      }
    }
  }

  /** The receipt that an execution's event names is there, hashes as recorded, and is about that electron, tick and
      log. */
  predicate ReceiptStands(d: Disk, id: ElectronId, r: Record) {
    && r.Record? && r.payload.OfReceipt? && r.payload.path in d.receipts
    && var receipt := d.receipts[r.payload.path];
       r.payload.receipt == Digest(ReceiptContent(receipt)) && receipt.electron == id && receipt.tick == r.tick
       && receipt.eventLog == r.payload.eventLog
  }

  lemma ReceiptsExactly(d: Disk, id: ElectronId)
    ensures ReceiptsAudit(d, id) <==>
            forall r :: r in Events(d, id) && r.Record? && r.kind == EXECUTION_VERIFIED ==> ReceiptStands(d, id, r)
  {
    forall i | 0 <= i < |Events(d, id)| && IsExecution(Events(d, id)[i])
      ensures ReceiptAudit(d, id, Events(d, id)[i]) <==> ReceiptStands(d, id, Events(d, id)[i])
    {
    }
  }

  /** A verified execution in the ledger names this path and what the file there hashes to now. */
  ghost predicate Vouches(events: seq<Record>, d: Disk, path: ReceiptPath)
    requires path in d.receipts
  {
    exists i :: 0 <= i < |events| && events[i].Record? && events[i].kind == EXECUTION_VERIFIED
      && events[i].payload.OfReceipt?
                && events[i].payload.path == path && events[i].payload.receipt ==
                   Digest(ReceiptContent(d.receipts[path]))
  }

  /** The last receipt, if there is one, stands as the electron's own, or is that of someone in its lineage whose whole
      ledger vouches for it. */
  lemma LastReceiptExactly(d: Disk, id: ElectronId)
    requires id in d.states
    ensures LastReceiptAudit(d, id) <==>
            match d.states[id].core.lastReceipt
            case None => true
            case Some(path) =>
              || (exists i :: 0 <= i < |Events(d, id)| && IsExecution(Events(d, id)[i])
                              && ReceiptStands(d, id, Events(d, id)[i]) && Events(d, id)[i].payload.path == path)
              || (path in d.receipts && d.receipts[path].electron in d.states[id].core.lineage
                  && WholeChain(Events(d, d.receipts[path].electron))
                     && Vouches(Events(d, d.receipts[path].electron), d, path))
  {
    var c := d.states[id].core;
    if c.lastReceipt.Some? {
      var path := c.lastReceipt.value;
      forall i | 0 <= i < |Events(d, id)| && IsExecution(Events(d, id)[i])
        ensures ReceiptAudit(d, id, Events(d, id)[i]) <==> ReceiptStands(d, id, Events(d, id)[i])
      {
      }
      if path in d.receipts {
        var events := Events(d, d.receipts[path].electron);
        ChainIsWhole(events);
        assert Vouches(events, d, path) <==>
               exists i :: 0 <= i < |events| && NamesReceipt(events[i], path, Digest(ReceiptContent(d.receipts[path])));
      }
    }
  }
}
