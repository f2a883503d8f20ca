/** Per-replica counts merged by pointwise maximum: version vectors, grow-only counters and up-down counters,
    over every run of local updates and exchanges. */
module Clocks {
  import opened Common
  import opened AntiEntropy

  type Counts = map<Id, nat>

  function Get(c: Counts, k: Id): nat {
    if k in c then c[k] else 0
  }

  function Join(a: Counts, b: Counts): Counts {
    map k | k in a.Keys + b.Keys :: if Get(a, k) >= Get(b, k) then Get(a, k) else Get(b, k)
  }

  lemma JoinAt(a: Counts, b: Counts, k: Id)
    ensures Get(Join(a, b), k) == if Get(a, k) >= Get(b, k) then Get(a, k) else Get(b, k)
  {
  }

  predicate Always(c: Counts) { true }

  lemma JoinAssociates(a: Counts, b: Counts, c: Counts)
    ensures Join(Join(a, b), c) == Join(a, Join(b, c))
  {
    var l, r := Join(Join(a, b), c), Join(a, Join(b, c));
    assert l.Keys == r.Keys == a.Keys + b.Keys + c.Keys;
    forall k | k in l
      ensures l[k] == r[k]
    {
      JoinAt(a, b, k);
      JoinAt(b, c, k);
    }
  }

  /** Merge is commutative, associative and idempotent, on the stored maps and not only on their values. */
  lemma JoinIsSemilattice()
    ensures Semilattice(Join, Always)
  {
    forall a, b, c
      ensures JoinLaws(Join, Always, a, b, c)
    {
      assert Join(a, b) == Join(b, a);
      assert Join(a, a) == a;
      JoinAssociates(a, b, c);
    }
  }

  /** The loop all three types merge with: a copy of the left map raised by the entries of the right one. */
  method MergeCounts(a: Counts, b: Counts) returns (out: Counts)
    ensures out == Join(a, b)
  {
    out := a;
    var rest := b.Keys;
    while rest != {}
      invariant rest <= b.Keys && out.Keys == a.Keys + (b.Keys - rest)
      invariant forall k :: k in out ==> out[k] == if k in rest then Get(a, k) else Get(Join(a, b), k)
    {
      var k :| k in rest;
      out := out[k := if Get(out, k) >= b[k] then Get(out, k) else b[k]];
      rest := rest - {k};
    }
  }

  // ----- Version vectors -----

  predicate AtLeast(a: Counts, b: Counts) {
    forall k :: k in a.Keys + b.Keys ==> Get(a, k) >= Get(b, k)
  }

  predicate SomewhereAbove(a: Counts, b: Counts) {
    exists k :: k in a.Keys + b.Keys && Get(a, k) > Get(b, k)
  }

  predicate Dominates(a: Counts, b: Counts) {
    AtLeast(a, b) && SomewhereAbove(a, b)
  }

  datatype Order = EQUAL | DOMINATES | DOMINATED | CONCURRENT

  function Compare(a: Counts, b: Counts): Order {
    if a == b then EQUAL else if Dominates(a, b) then DOMINATES else if Dominates(b, a) then DOMINATED else CONCURRENT
  }

  class VersionVector {
    const replicaId: Id
    var versions: Counts

    constructor (replicaId: Id, versions: Counts)
      ensures this.replicaId == replicaId && this.versions == versions
    {
      this.replicaId := replicaId;
      this.versions := versions;
    }

    method Tick()
      modifies this
      ensures versions == old(versions)[replicaId := Get(old(versions), replicaId) + 1]
    {
      versions := versions[replicaId := Get(versions, replicaId) + 1];
    }

    method Merge(other: VersionVector) returns (out: VersionVector)
      ensures fresh(out) && out.replicaId == replicaId && out.versions == Join(versions, other.versions)
    {
      var merged := MergeCounts(versions, other.versions);
      out := new VersionVector(replicaId, merged);
    }
  }

  lemma AtLeastEverywhere(a: Counts, b: Counts)
    ensures AtLeast(a, b) <==> forall k :: Get(a, k) >= Get(b, k)
  {
    if AtLeast(a, b) {
      forall k
        ensures Get(a, k) >= Get(b, k)
      {
        if k in a.Keys + b.Keys {
        }
      }
    }
  }

  /** Strict dominance is irreflexive, asymmetric and transitive. */
  lemma DominanceIsStrictOrder(a: Counts, b: Counts, c: Counts)
    ensures !Dominates(a, a)
    ensures Dominates(a, b) ==> !Dominates(b, a)
    ensures Dominates(a, b) && Dominates(b, c) ==> Dominates(a, c)
  {
    AtLeastEverywhere(a, b);
    AtLeastEverywhere(b, a);
    AtLeastEverywhere(b, c);
    AtLeastEverywhere(a, c);
    if Dominates(a, b) && Dominates(b, c) {
      var k :| k in a.Keys + b.Keys && Get(a, k) > Get(b, k);
      assert Get(b, k) >= Get(c, k) && k in a.Keys + c.Keys;
    }
  }

  /** Merge is the least vector at or above both. */
  lemma MergeIsLeastUpperBound(a: Counts, b: Counts, c: Counts)
    ensures AtLeast(Join(a, b), a) && AtLeast(Join(a, b), b)
    ensures AtLeast(c, a) && AtLeast(c, b) ==> AtLeast(c, Join(a, b))
  {
    AtLeastEverywhere(c, a);
    AtLeastEverywhere(c, b);
  }

  /** `compare` reads the stored dictionaries: it answers by pointwise order on every pair except two different
      dictionaries with the same counts, which a stored zero makes possible and which it calls concurrent. */
  lemma CompareIsPointwiseExactly(a: Counts, b: Counts)
    ensures Compare(a, b) == DOMINATES <==> AtLeast(a, b) && !AtLeast(b, a)
    ensures Compare(a, b) == DOMINATED <==> AtLeast(b, a) && !AtLeast(a, b)
    ensures Compare(a, b) == CONCURRENT <==>
              (!AtLeast(a, b) && !AtLeast(b, a)) || (AtLeast(a, b) && AtLeast(b, a) && a != b)
    ensures (forall k :: k in a ==> a[k] > 0) && (forall k :: k in b ==> b[k] > 0) ==>
              (Compare(a, b) == EQUAL <==> AtLeast(a, b) && AtLeast(b, a))
  {
    AtLeastEverywhere(a, b);
    AtLeastEverywhere(b, a);
    assert AtLeast(a, b) && !AtLeast(b, a) ==> SomewhereAbove(a, b);
    assert AtLeast(b, a) && !AtLeast(a, b) ==> SomewhereAbove(b, a);
    if AtLeast(a, b) && AtLeast(b, a) {
      assert forall k :: Get(a, k) == Get(b, k);
      if (forall k :: k in a ==> a[k] > 0) && (forall k :: k in b ==> b[k] > 0) {
        forall k
          ensures k in a <==> k in b
        {
          assert Get(a, k) == Get(b, k);
        }
        assert forall k :: k in a ==> Get(a, k) == Get(b, k);
        assert a == b;
      }
    }
  }

  lemma StoredZeroLooksConcurrent(k: Id)
    ensures Compare(map[k := 0], map[]) == CONCURRENT
    ensures AtLeast(map[k := 0], map[]) && AtLeast(map[], map[k := 0])
  {
    var zero: Counts, none: Counts := map[k := 0], map[];
    assert k in zero && k !in none;
  }

  datatype ClockEvent = Tick(at: Id) | Merge(into: Id, from: Id)

  /** The vector replica r holds after the run. */
  function Vector(run: seq<ClockEvent>, r: Id): Counts {
    if run == [] then map[] else
    var before, e := run[..|run| - 1], run[|run| - 1];
    match e
    case Tick(q) => if q == r then Vector(before, r)[r := Get(Vector(before, r), r) + 1] else Vector(before, r)
    case Merge(into, from) => if into == r then Join(Vector(before, r), Vector(before, from)) else Vector(before, r)
  }

  datatype Moment = At(index: nat)

  /** The ticks, named by when they happened, that replica r has heard of. */
  ghost function Heard(run: seq<ClockEvent>, r: Id): set<Moment> {
    if run == [] then {} else
    var before, e := run[..|run| - 1], run[|run| - 1];
    match e
    case Tick(q) => if q == r then Heard(before, r) + {At(|run| - 1)} else Heard(before, r)
    case Merge(into, from) => if into == r then Heard(before, r) + Heard(before, from) else Heard(before, r)
  }

  ghost function TicksBy(run: seq<ClockEvent>, k: Id): nat {
    if run == [] then 0 else
    TicksBy(run[..|run| - 1], k) + if run[|run| - 1] == Tick(k) then 1 else 0
  }

  lemma {:induction false} TicksGrow(run: seq<ClockEvent>, i: nat, k: Id)
    requires i <= |run|
    ensures TicksBy(run[..i], k) <= TicksBy(run, k)
    decreases |run|
  {
    if i < |run| {
      TicksGrow(run[..|run| - 1], i, k);
      assert run[..|run| - 1][..i] == run[..i];
    } else {
      assert run[..i] == run;
    }
  }

  /** Replica r has heard of a tick exactly when the tick's number is within r's entry for its issuer. */
  ghost predicate WithinEntry(run: seq<ClockEvent>, r: Id, t: Moment) {
    && t.index < |run| && run[t.index].Tick?
    && TicksBy(run[..t.index + 1], run[t.index].at) <= Get(Vector(run, r), run[t.index].at)
  }

  lemma {:induction false} HeardIsWithinEntry(run: seq<ClockEvent>, r: Id, t: Moment)
    ensures t in Heard(run, r) <==> WithinEntry(run, r, t)
    decreases |run|
  {
    if run != [] {
      var before, e := run[..|run| - 1], run[|run| - 1];
      HeardIsWithinEntry(before, r, t);
      if e.Merge? {
        HeardIsWithinEntry(before, e.from, t);
      } else {
        OwnEntryCounts(before, e.at);
        EntryWithinTicks(before, r, e.at);
      }
      if t.index < |before| {
        assert before[..t.index + 1] == run[..t.index + 1];
        if run[t.index].Tick? {
          TicksGrow(before, t.index + 1, run[t.index].at);
        }
      } else if t.index < |run| {
        assert run[..t.index + 1] == run;
      }
    }
  }

  lemma {:induction false} EntryWithinTicks(run: seq<ClockEvent>, r: Id, k: Id)
    ensures Get(Vector(run, r), k) <= TicksBy(run, k)
    decreases |run|
  {
    if run != [] {
      var before, e := run[..|run| - 1], run[|run| - 1];
      EntryWithinTicks(before, r, k);
      if e.Merge? {
        EntryWithinTicks(before, e.from, k);
      } else {
        OwnEntryCounts(before, e.at);
      }
    }
  }

  lemma {:induction false} OwnEntryCounts(run: seq<ClockEvent>, r: Id)
    ensures Get(Vector(run, r), r) == TicksBy(run, r)
    decreases |run|
  {
    if run != [] {
      var before, e := run[..|run| - 1], run[|run| - 1];
      OwnEntryCounts(before, r);
      if e.Merge? {
        EntryWithinTicks(before, e.from, r);
      }
    }
  }

  /** Among the ticks of one issuer every number up to the count is used. */
  lemma {:induction false} TickNumbered(run: seq<ClockEvent>, k: Id, n: nat) returns (t: Moment)
    requires 0 < n <= TicksBy(run, k)
    ensures t.index < |run| && run[t.index] == Tick(k) && TicksBy(run[..t.index + 1], k) == n
    decreases |run|
  {
    var before := run[..|run| - 1];
    if n <= TicksBy(before, k) {
      t := TickNumbered(before, k, n);
      assert before[..t.index + 1] == run[..t.index + 1];
    } else {
      t := At(|run| - 1);
      assert run[..t.index + 1] == run;
    }
  }

  /** In every run, one vector is pointwise at most another exactly when its holder has heard of no tick the
      other has not: version vectors characterise causality. */
  lemma VectorsCharacteriseCausality(run: seq<ClockEvent>, a: Id, b: Id)
    ensures AtLeast(Vector(run, b), Vector(run, a)) <==> Heard(run, a) <= Heard(run, b)
  {
    AtLeastEverywhere(Vector(run, b), Vector(run, a));
    if AtLeast(Vector(run, b), Vector(run, a)) {
      forall t | t in Heard(run, a)
        ensures t in Heard(run, b)
      {
        HeardIsWithinEntry(run, a, t);
        HeardIsWithinEntry(run, b, t);
      }
    }
    if Heard(run, a) <= Heard(run, b) {
      forall k
        ensures Get(Vector(run, b), k) >= Get(Vector(run, a), k)
      {
        var n := Get(Vector(run, a), k);
        EntryWithinTicks(run, a, k);
        if n > 0 {
          var t := TickNumbered(run, k, n);
          HeardIsWithinEntry(run, a, t);
          HeardIsWithinEntry(run, b, t);
        }
      }
    }
  }

  lemma {:induction false} EntriesArePositive(run: seq<ClockEvent>, r: Id)
    ensures forall k :: k in Vector(run, r) ==> Vector(run, r)[k] > 0
    decreases |run|
  {
    if run != [] {
      var before, e := run[..|run| - 1], run[|run| - 1];
      EntriesArePositive(before, r);
      if e.Merge? {
        EntriesArePositive(before, e.from);
      }
    }
  }

  /** So on the vectors of a run `compare` reports exactly how the two sets of heard ticks are ordered. */
  lemma CompareReportsCausality(run: seq<ClockEvent>, a: Id, b: Id)
    ensures Compare(Vector(run, a), Vector(run, b)) ==
            if Heard(run, a) == Heard(run, b) then EQUAL
            else if Heard(run, b) <= Heard(run, a) then DOMINATES
            else if Heard(run, a) <= Heard(run, b) then DOMINATED
            else CONCURRENT
  {
    VectorsCharacteriseCausality(run, a, b);
    VectorsCharacteriseCausality(run, b, a);
    EntriesArePositive(run, a);
    EntriesArePositive(run, b);
    CompareIsPointwiseExactly(Vector(run, a), Vector(run, b));
    assert Heard(run, a) == Heard(run, b) <==> Heard(run, a) <= Heard(run, b) && Heard(run, b) <= Heard(run, a);
  }
}
