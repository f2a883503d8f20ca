/** The reconciler applied to the fleets that runs of each replicated type produce. */
module Reconciliation {
  import opened Common
  import opened AntiEntropy
  import opened Clocks
  import Counters
  import OrSet
  import LwwRegister

  const DEFAULT_ROUNDS: nat := 16

  function Itself<T>(x: T): T { x }

  lemma ItselfIsKept<T(!new)>(merge: (T, T) -> T, dom: T -> bool)
    requires Semilattice(merge, dom)
    ensures ViewRespectsMerge(merge, Itself<T>, dom)
  {
    forall a, b
      ensures ViewKept(merge, Itself<T>, dom, a, b)
    {
      if dom(a) && a == b {
        Laws(merge, dom, a, a, a);
      }
    }
  }

  /** One call on any fleet of at least two leaves every replica at the join, in at most two rounds. */
  method Reconcile<T(!new), V(==)>(merge: (T, T) -> T, view: T -> V, ghost dom: T -> bool, start: map<Id, T>)
    returns (fleet: map<Id, T>, ids: seq<Id>, rounds: nat)
    requires Semilattice(merge, dom) && ViewRespectsMerge(merge, view, dom)
    requires |start.Keys| >= 2 && forall k :: k in start ==> dom(start[k])
    ensures fleet.Keys == start.Keys && Enumerates(ids, start.Keys) && |ids| >= 2
    ensures forall k :: k in fleet ==> fleet[k] == JoinUpTo(merge, start, ids, |ids| - 1)
    ensures rounds == if SameViews(view, start) then 1 else 2
  {
    var reconciler := new AntiEntropy<T, V>(merge, view, dom, start);
    var report := reconciler.Converge(DEFAULT_ROUNDS);
    AtLeastTwo(report.ids, start.Keys);
    return reconciler.replicas, report.ids, report.rounds;
  }

  lemma FewIdsFewKeys(ids: seq<Id>, keys: set<Id>)
    requires Enumerates(ids, keys)
    ensures |ids| == 0 ==> keys == {}
    ensures |ids| == 1 ==> keys == {ids[0]}
  {
  }

  lemma AtLeastTwo(ids: seq<Id>, keys: set<Id>)
    requires Enumerates(ids, keys) && |keys| >= 2
    ensures |ids| >= 2
  {
    FewIdsFewKeys(ids, keys);
  }

  /** Whatever a counter fleet did, one call leaves every replica with the same counts, whose value is the sum of
      all increments ever made. */
  method ReconcileCounters(run: seq<Counters.CounterEvent>, keys: set<Id>) returns (fleet: map<Id, Counts>)
    requires |keys| >= 2 && Counters.Among(run, keys)
    ensures fleet.Keys == keys
    ensures forall a :: a in keys ==> Counters.SumOver(fleet[a].Keys, fleet[a]) == Counters.Total(run)
    ensures forall a, b :: a in keys && b in keys ==> fleet[a] == fleet[b]
  {
    var start := map k | k in keys :: Counters.CountsAfter(run, k);
    assert start.Keys == keys;
    JoinIsSemilattice();
    ItselfIsKept(Join, Always);
    var ids, rounds;
    fleet, ids, rounds := Reconcile(Join, Itself<Counts>, Always, start);
    assert start == Counters.Fleet(run, ids);
    Counters.AgreedValueIsTotal(run, ids, keys);
  }

  /** And every replica of a reconciled fleet of up-down counters reads the net of everything ever added. */
  method ReconcileUpDown(run: seq<Counters.UpDownEvent>, keys: set<Id>) returns (fleet: map<Id, Counters.UpDown>)
    requires |keys| >= 2 && Counters.UpDownAmong(run, keys)
    ensures fleet.Keys == keys
    ensures forall a :: a in keys ==> Counters.ValueOf(fleet[a]) == Counters.Net(run)
    ensures forall a, b :: a in keys && b in keys ==> fleet[a] == fleet[b]
  {
    var start := map k | k in keys :: Counters.UpDownAfter(run, k);
    assert start.Keys == keys;
    Counters.JoinUpDownIsSemilattice();
    ItselfIsKept(Counters.JoinUpDown, Counters.AnyUpDown);
    var ids, rounds;
    fleet, ids, rounds := Reconcile(Counters.JoinUpDown, Itself<Counters.UpDown>, Counters.AnyUpDown, start);
    assert start == Counters.UpDownFleet(run, ids);
    Counters.AgreedValueIsNet(run, ids, keys);
  }

  /** Every replica of a reconciled set fleet contains exactly the elements with an add no remove observed. */
  method ReconcileSets(run: seq<OrSet.SetEvent>, keys: set<Id>) returns (fleet: map<Id, OrSet.SetState>)
    requires |keys| >= 2 && OrSet.Among(run, keys)
    ensures fleet.Keys == keys
    ensures forall a, x :: a in keys ==>
              (OrSet.Contains(fleet[a], x) <==>
               exists p :: 0 <= p < |run| && run[p].Add? && run[p].element == x && OrSet.Survives(run, p))
  {
    var start := map k | k in keys :: OrSet.SetAfter(run, k);
    assert start.Keys == keys;
    OrSet.JoinSetsIsSemilattice();
    var ids, rounds;
    fleet, ids, rounds := Reconcile(OrSet.JoinSets, OrSet.Hashed, OrSet.AnySet, start);
    assert start == OrSet.Fleet(run, ids);
    forall x {
      OrSet.AgreedMembers(run, ids, keys, x);
    }
  }

  /** Registers whose writes rise reconcile, under any of the three policies, to one recorded write that no replica
      held a later one than. */
  method ReconcileRegisters(p: LwwRegister.Policy, run: seq<LwwRegister.RegisterEvent>, keys: set<Id>)
    returns (fleet: map<Id, LwwRegister.Register>)
    requires |keys| >= 2 && LwwRegister.Rising(p, run)
    ensures fleet.Keys == keys
    ensures forall a, b :: a in keys && b in keys ==>
              && fleet[a] == fleet[b]
              && LwwRegister.Recorded(fleet[a], LwwRegister.Writes(p, run))
              && !LwwRegister.Later(LwwRegister.RegisterAfter(p, run, b), fleet[a])
  {
    ghost var h := LwwRegister.Writes(p, run);
    var start := map k | k in keys :: LwwRegister.RegisterAfter(p, run, k);
    assert start.Keys == keys;
    forall k | k in keys
      ensures LwwRegister.RecordedIn(h)(start[k])
    {
      LwwRegister.RunsAreRecorded(p, run, k);
    }
    LwwRegister.MergeIsSemilattice(h, p);
    ItselfIsKept(LwwRegister.MergeUnder(p), LwwRegister.RecordedIn(h));
    var ids, rounds;
    fleet, ids, rounds := Reconcile(
      LwwRegister.MergeUnder(p), Itself<LwwRegister.Register>, LwwRegister.RecordedIn(h), start);
    ListedFleet(p, run, ids, start);
    NoneIsLater(p, run, ids, keys);
  }

  lemma ListedFleet(p: LwwRegister.Policy, run: seq<LwwRegister.RegisterEvent>, ids: seq<Id>,
      start: map<Id, LwwRegister.Register>)
    requires Enumerates(ids, start.Keys) && forall k :: k in start ==> start[k] == LwwRegister.RegisterAfter(p, run, k)
    ensures start == LwwRegister.Fleet(p, run, ids)
  {
    assert forall k :: k in start <==> k in ids;
  }

  lemma NoneIsLater(p: LwwRegister.Policy, run: seq<LwwRegister.RegisterEvent>, ids: seq<Id>, keys: set<Id>)
    requires Enumerates(ids, keys) && ids != [] && LwwRegister.Rising(p, run)
    ensures var agreed := JoinUpTo(LwwRegister.MergeUnder(p), LwwRegister.Fleet(p, run, ids), ids, |ids| - 1);
            && LwwRegister.Recorded(agreed, LwwRegister.Writes(p, run))
            && forall b :: b in keys ==> !LwwRegister.Later(LwwRegister.RegisterAfter(p, run, b), agreed)
  {
    LwwRegister.AgreedIsLatest(p, run, ids, 0);
    forall b | b in keys
      ensures !LwwRegister.Later(LwwRegister.RegisterAfter(p, run, b),
                                 JoinUpTo(LwwRegister.MergeUnder(p), LwwRegister.Fleet(p, run, ids), ids, |ids| - 1))
    {
      var i := OrSet.IdIsListed(ids, keys, b);
      LwwRegister.AgreedIsLatest(p, run, ids, i);
    }
  }
}
