/** How an electron that may not execute comes to be operable again: what one call does to it, and what a run must
    contain. */
module StoreOperability {
  import opened Common
  import opened Records
  import opened Ledger
  import opened StoreModel
  import opened StoreInvariants

  ghost predicate OperableIn(d: Disk, id: ElectronId) {
    id in d.states && Operable(d.states[id].core)
  }

  /** The call that makes an inoperable electron operable, told from the disk before it: the resume of a suspended
      electron that is not retired, or a restore that nothing objects to of one that is not suspended. */
  ghost predicate Revives(d: Disk, call: Call, id: ElectronId) {
    match call
    case DoSuspend(target, value, _) => target == id && !value && SuspendObjection(d, id, false) == None
    case DoRestore(target, h, _) =>
      target == id && RestoreObjection(d, id, h) == None && !d.states[id].core.suspended
    case _ => false
  }

  ghost predicate SameState(d: Disk, later: Disk, id: ElectronId) {
    id in d.states && id in later.states && later.states[id] == d.states[id]
  }

  // ----- Calls that leave the electron as it is, or as inoperable as it is -----

  lemma CreateLeaves(d: Disk, cfg: Config, other: ElectronId, genome: Genome, now: Timestamp, id: ElectronId)
    requires Good(d) && other !in d.states && id in d.states
    ensures SameState(d, Create(d, cfg, other, genome, now).disk, id)
  {
    CreateIsGood(d, cfg, other, genome, now);
    if |d.states| < cfg.maxElectrons {
      CreateIsCommit(d, cfg, other, genome, now);
    }
  }

  lemma SnapshotLeaves(d: Disk, target: ElectronId, now: Timestamp, id: ElectronId)
    requires Good(d) && id in d.states
    ensures target != id ==> SameState(d, TakeSnapshot(d, target, now).disk, id)
    ensures OperableIn(TakeSnapshot(d, target, now).disk, id) <==> OperableIn(d, id)
  {
    SnapshotIsGood(d, target, now);
    if Snappable(d, target) {
      SnapshotIsCommit(d, target, now);
    }
  }

  lemma ForkLeaves(d: Disk, cfg: Config, parent: ElectronId, child: ElectronId, now: Timestamp, id: ElectronId)
    requires Good(d) && id in d.states && !OperableIn(d, id)
    ensures SameState(d, Fork(d, cfg, parent, child, now).disk, id)
  {
    ForkIsGood(d, cfg, parent, child, now);
    if OperableIn(d, parent) && |d.states| < cfg.maxElectrons {
      SnapshotLeaves(d, parent, now, id);
      if child in d.states {
        ForkOnTakenId(d, cfg, parent, child, now);
      } else {
        ForkIsCommits(d, cfg, parent, child, now);
        ChildIsShaped(d, parent, child, now);
      }
    } else {
      ForkRefusedAtOnce(d, cfg, parent, child, now);
    }
  }

  lemma ForkOnTakenId(d: Disk, cfg: Config, parent: ElectronId, child: ElectronId, now: Timestamp)
    requires Good(d) && OperableIn(d, parent) && |d.states| < cfg.maxElectrons && child in d.states
    ensures Fork(d, cfg, parent, child, now).disk == TakeSnapshot(d, parent, now).disk
  {
    LoadsWhole(d, parent);
    SnapshotIsGood(d, parent, now);
    SnapshotKeepsIds(d, parent, now);
  }

  lemma ForkRefusedAtOnce(d: Disk, cfg: Config, parent: ElectronId, child: ElectronId, now: Timestamp)
    requires Good(d) && !(OperableIn(d, parent) && |d.states| < cfg.maxElectrons)
    ensures Fork(d, cfg, parent, child, now).disk == d
  {
    if parent in d.states {
      LoadsWhole(d, parent);
    }
  }

  lemma RestoreRevives(d: Disk, target: ElectronId, h: Hash, now: Timestamp, id: ElectronId)
    requires Good(d) && id in d.states && !OperableIn(d, id)
    ensures OperableIn(Restore(d, target, h, now).disk, id) <==> Revives(d, DoRestore(target, h, now), id)
  {
    RestoreIsGood(d, target, h, now);
    if RestoreObjection(d, target, h) == None {
      RestoreIsCommit(d, target, h, now);
    }
  }

  lemma SuspendRevives(d: Disk, target: ElectronId, value: bool, now: Timestamp, id: ElectronId)
    requires Good(d) && id in d.states && !OperableIn(d, id)
    ensures OperableIn(SetSuspended(d, target, value, now).disk, id) <==> Revives(d, DoSuspend(target, value, now), id)
  {
    SuspendIsGood(d, target, value, now);
    if SuspendObjection(d, target, value) == None {
      SuspendIsCommit(d, target, value, now);
    }
  }

  lemma RetireLeaves(d: Disk, target: ElectronId, now: Timestamp, id: ElectronId)
    requires Good(d) && id in d.states && !OperableIn(d, id)
    ensures id in Retire(d, target, now).disk.states && !OperableIn(Retire(d, target, now).disk, id)
  {
    RetireIsGood(d, target, now);
    if RetireObjection(d, target) == None {
      RetireIsCommit(d, target, now);
    }
  }

  lemma RecordLeaves(d: Disk, cfg: Config, target: ElectronId, e: Execution, now: Timestamp, id: ElectronId)
    requires Good(d) && id in d.states && !OperableIn(d, id)
    ensures SameState(d, RecordExecution(d, cfg, target, e, now).disk, id)
  {
    RecordIsGood(d, cfg, target, e, now);
    if Started(d, cfg, target) {
      RecordIsCommit(d, cfg, target, e, now);
    }
  }

  /** One call makes an inoperable electron operable exactly when it is the resume or the restore above. */
  lemma RevivesExactly(d: Disk, cfg: Config, call: Call, id: ElectronId)
    requires Good(d) && IsFresh(d, call) && id in d.states && !OperableIn(d, id)
    ensures OperableIn(Do(d, cfg, call).disk, id) <==> Revives(d, call, id)
  {
    match call
    case DoCreate(other, genome, now) => CreateLeaves(d, cfg, other, genome, now, id);
    case DoSnapshot(target, now) => SnapshotLeaves(d, target, now, id);
    case DoFork(parent, child, now) => ForkLeaves(d, cfg, parent, child, now, id);
    case DoRestore(target, h, now) => RestoreRevives(d, target, h, now, id);
    case DoSuspend(target, value, now) => SuspendRevives(d, target, value, now, id);
    case DoRetire(target, now) => RetireLeaves(d, target, now, id);
    case DoRecord(target, e, now) => RecordLeaves(d, cfg, target, e, now, id);
  }

  // ----- Suspending and resuming revives a faulted electron -----

  lemma FaultedIsNeither(d: Disk, id: ElectronId)
    requires Good(d) && id in d.states && d.states[id].core.status in {FAULTED, BLOCKED}
    ensures !d.states[id].core.retired && !d.states[id].core.suspended
  {
    assert ElectronOk(d, id);
  }

  /** A faulted electron that is suspended and then resumed is operable, with no restore: neither call is refused. */
  lemma SuspendThenResumeRevives(d: Disk, id: ElectronId, t: Timestamp, u: Timestamp)
    requires Good(d) && id in d.states && d.states[id].core.status in {FAULTED, BLOCKED}
    ensures var first := SetSuspended(d, id, true, t);
            var second := SetSuspended(first.disk, id, false, u);
            && !OperableIn(d, id) && !OperableIn(first.disk, id) && OperableIn(second.disk, id)
            && first.refused == None && second.refused == None
  {
    FaultedIsNeither(d, id);
    SuspendIsGood(d, id, true, t);
    SuspendIsCommit(d, id, true, t);
    var mid := SetSuspended(d, id, true, t).disk;
    assert !OperableIn(mid, id);
    SuspendIsGood(mid, id, false, u);
    SuspendRevives(mid, id, false, u, id);
  }

  /** In every run that leaves an electron faulted, two more calls make it operable, and neither is a restore. */
  lemma RunRevivesWithoutRestore(cfg: Config, calls: seq<Call>, id: ElectronId, t: Timestamp, u: Timestamp)
    requires FreshIds(cfg, calls) && id in After(cfg, calls).states
    requires After(cfg, calls).states[id].core.status in {FAULTED, BLOCKED}
    ensures OperableIn(After(cfg, calls + [DoSuspend(id, true, t), DoSuspend(id, false, u)]), id)
  {
    RunIsGood(cfg, calls);
    var d := After(cfg, calls);
    SuspendThenResumeRevives(d, id, t, u);
    TwoMore(Doing(cfg), calls, DoSuspend(id, true, t), DoSuspend(id, false, u));
    DoingSuspends(cfg, d, id, true, t);
    DoingSuspends(cfg, SetSuspended(d, id, true, t).disk, id, false, u);
  }

  lemma DoingSuspends(cfg: Config, d: Disk, id: ElectronId, value: bool, now: Timestamp)
    ensures Doing(cfg)(d, DoSuspend(id, value, now)) == SetSuspended(d, id, value, now).disk
  {
  }

  lemma TwoMore(step: (Disk, Call) -> Disk, calls: seq<Call>, a: Call, b: Call)
    ensures Run(step, calls + [a, b]) == step(step(Run(step, calls), a), b)
  {
    var all := calls + [a, b];
    assert all[..|all| - 1] == calls + [a] && (calls + [a])[..|calls|] == calls;
  }

  // ----- Runs -----

  /** Every fresh call on a good disk keeps it good and its electrons there, and revives one only as told. */
  ghost predicate EachRevives(step: (Disk, Call) -> Disk, id: ElectronId) {
    forall d, call {:trigger step(d, call)} :: RevivesAsTold(d, call, step(d, call), id)
  }

  ghost predicate RevivesAsTold(d: Disk, call: Call, later: Disk, id: ElectronId) {
    Good(d) && IsFresh(d, call) ==>
      && Good(later)
      && (id in d.states ==> id in later.states)
      && (id in d.states && !OperableIn(d, id) ==> (OperableIn(later, id) <==> Revives(d, call, id)))
  }

  /** Call j of the run finds the electron inoperable and revives it. */
  ghost predicate RevivesAt(step: (Disk, Call) -> Disk, calls: seq<Call>, j: nat, id: ElectronId)
    requires j < |calls|
  {
    !OperableIn(Run(step, calls[..j]), id) && Revives(Run(step, calls[..j]), calls[j], id)
  }

  lemma {:induction false} SomeCallRevives(step: (Disk, Call) -> Disk, calls: seq<Call>, k: nat, id: ElectronId)
    requires EachRevives(step, id) && AllFresh(step, calls) && k <= |calls|
    requires id in Run(step, calls[..k]).states && !OperableIn(Run(step, calls[..k]), id)
    ensures Good(Run(step, calls)) && id in Run(step, calls).states
    ensures OperableIn(Run(step, calls), id) ==> exists j :: k <= j < |calls| && RevivesAt(step, calls, j, id)
    decreases |calls|
  {
    if k == |calls| {
      assert calls[..k] == calls;
      RunStaysGood(step, calls, id);
    } else {
      var n := |calls| - 1;
      var before, call := calls[..n], calls[n];
      FreshPrefix(step, calls, n);
      assert before[..k] == calls[..k];
      SomeCallRevives(step, before, k, id);
      assert FreshAt(step, calls, n);
      assert RevivesAsTold(Run(step, before), call, step(Run(step, before), call), id);
      if OperableIn(Run(step, calls), id) {
        if OperableIn(Run(step, before), id) {
          var j :| k <= j < n && RevivesAt(step, before, j, id);
          assert before[..j] == calls[..j] && before[j] == calls[j];
          assert RevivesAt(step, calls, j, id);
        } else {
          assert RevivesAt(step, calls, n, id);
        }
      }
    }
  }

  lemma {:induction false} RunStaysGood(step: (Disk, Call) -> Disk, calls: seq<Call>, id: ElectronId)
    requires EachRevives(step, id) && AllFresh(step, calls)
    ensures Good(Run(step, calls))
    decreases |calls|
  {
    if calls == [] {
      EmptyIsGood();
    } else {
      var n := |calls| - 1;
      FreshPrefix(step, calls, n);
      RunStaysGood(step, calls[..n], id);
      assert FreshAt(step, calls, n);
      assert RevivesAsTold(Run(step, calls[..n]), calls[n], step(Run(step, calls[..n]), calls[n]), id);
    }
  }

  /** Whenever an electron is inoperable at one point of a run and operable at its end, some call between was made
      while it was inoperable and is the resume of the suspended electron or a restore of the unsuspended one. */
  lemma OnlyResumeOrRestoreRevives(cfg: Config, calls: seq<Call>, k: nat, id: ElectronId)
    requires FreshIds(cfg, calls) && k <= |calls|
    requires id in After(cfg, calls[..k]).states && !OperableIn(After(cfg, calls[..k]), id)
    requires OperableIn(After(cfg, calls), id)
    ensures exists j :: k <= j < |calls| && RevivesAt(Doing(cfg), calls, j, id)
  {
    forall d, call
      ensures RevivesAsTold(d, call, Doing(cfg)(d, call), id)
    {
      if Good(d) && IsFresh(d, call) {
        CallIsGood(d, cfg, call);
        if id in d.states {
          assert KeptFor(d, Do(d, cfg, call).disk, id);
          if !OperableIn(d, id) {
            RevivesExactly(d, cfg, call, id);
          }
        }
      }
    }
    SomeCallRevives(Doing(cfg), calls, k, id);
  }
}
