/** Grow-only and up-down counters: after reconciliation every replica reads the sum of everything ever added. */
module Counters {
  import opened Common
  import opened AntiEntropy
  import opened Clocks

  // ----- Sums of counts -----

  ghost function SumOver(keys: set<Id>, c: Counts): nat {
    if keys == {} then 0 else
    var k :| k in keys; Get(c, k) + SumOver(keys - {k}, c)
  }

  lemma {:induction false} SumTakesOut(keys: set<Id>, c: Counts, k: Id)
    requires k in keys
    ensures SumOver(keys, c) == Get(c, k) + SumOver(keys - {k}, c)
    decreases |keys|
  {
    var j :| j in keys && SumOver(keys, c) == Get(c, j) + SumOver(keys - {j}, c);
    if j != k {
      SumTakesOut(keys - {j}, c, k);
      SumTakesOut(keys - {k}, c, j);
      assert keys - {j} - {k} == keys - {k} - {j};
    }
  }

  lemma {:induction false} SumAgrees(keys: set<Id>, more: set<Id>, c: Counts, d: Counts)
    requires keys <= more
    requires forall k :: k in keys ==> Get(c, k) == Get(d, k)
    requires forall k :: k in more && k !in keys ==> Get(d, k) == 0
    ensures SumOver(keys, c) == SumOver(more, d)
    decreases |more|
  {
    if more != {} {
      var k :| k in more;
      SumTakesOut(more, d, k);
      if k in keys {
        SumTakesOut(keys, c, k);
        SumAgrees(keys - {k}, more - {k}, c, d);
      } else {
        SumAgrees(keys, more - {k}, c, d);
      }
    }
  }

  function Raised(c: Counts, k: Id, n: nat): Counts {
    c[k := Get(c, k) + n]
  }

  lemma SumRaised(keys: set<Id>, c: Counts, k: Id, n: nat)
    requires k in keys
    ensures SumOver(keys, Raised(c, k, n)) == SumOver(keys, c) + n
  {
    var d := Raised(c, k, n);
    SumTakesOut(keys, c, k);
    SumTakesOut(keys, d, k);
    SumAgrees(keys - {k}, keys - {k}, c, d);
  }

  // ----- The grow-only counter -----

  class GCounter {
    var replicaId: Id
    var counts: Counts

    constructor (replicaId: Id, counts: Counts)
      ensures this.replicaId == replicaId && this.counts == counts
    {
      this.replicaId := replicaId;
      this.counts := counts;
    }

    method Increment(n: int) returns (ok: bool)
      modifies this
      ensures ok <==> n >= 0
      ensures replicaId == old(replicaId)
      ensures counts == if n >= 0 then Raised(old(counts), replicaId, n) else old(counts)
    {
      if n < 0 {
        return false;
      }
      counts := counts[replicaId := Get(counts, replicaId) + n];
      return true;
    }

    method Merge(other: GCounter) returns (out: GCounter)
      ensures fresh(out) && out.replicaId == replicaId && out.counts == Join(counts, other.counts)
    {
      var merged := MergeCounts(counts, other.counts);
      out := new GCounter(replicaId, merged);
    }

    method Value() returns (v: nat)
      ensures v == SumOver(counts.Keys, counts)
    {
      v := SumCounts(counts);
    }
  }

  method SumCounts(c: Counts) returns (v: nat)
    ensures v == SumOver(c.Keys, c)
  {
    v := 0;
    var rest := c.Keys;
    while rest != {}
      invariant rest <= c.Keys && v + SumOver(rest, c) == SumOver(c.Keys, c)
    {
      var k :| k in rest;
      SumTakesOut(rest, c, k);
      v := v + c[k];
      rest := rest - {k};
    }
  }

  datatype CounterEvent = Increment(at: Id, n: nat) | Exchange(a: Id, b: Id)

  /** The counts replica r holds after the run. */
  function CountsAfter(run: seq<CounterEvent>, r: Id): Counts {
    if run == [] then map[] else
    var before, e := run[..|run| - 1], run[|run| - 1];
    match e
    case Increment(q, n) => if q == r then Raised(CountsAfter(before, r), r, n) else CountsAfter(before, r)
    case Exchange(a, b) =>
      if r == a || r == b then Join(CountsAfter(before, a), CountsAfter(before, b)) else CountsAfter(before, r)
  }

  ghost function Issued(run: seq<CounterEvent>, k: Id): nat {
    if run == [] then 0 else
    var e := run[|run| - 1];
    Issued(run[..|run| - 1], k) + if e.Increment? && e.at == k then e.n else 0
  }

  ghost function Total(run: seq<CounterEvent>): nat {
    if run == [] then 0 else
    var e := run[|run| - 1];
    Total(run[..|run| - 1]) + if e.Increment? then e.n else 0
  }

  ghost predicate Among(run: seq<CounterEvent>, ids: set<Id>) {
    forall i :: 0 <= i < |run| ==> if run[i].Increment? then run[i].at in ids else run[i].a in ids && run[i].b in ids
  }

  /** No replica overstates what another added, and each states its own additions in full. */
  lemma {:induction false} CountsAreBounded(run: seq<CounterEvent>, r: Id, k: Id)
    ensures Get(CountsAfter(run, r), k) <= Issued(run, k)
    ensures Get(CountsAfter(run, k), k) == Issued(run, k)
    decreases |run|
  {
    if run != [] {
      var before, e := run[..|run| - 1], run[|run| - 1];
      CountsAreBounded(before, r, k);
      if e.Exchange? {
        CountsAreBounded(before, e.a, k);
        CountsAreBounded(before, e.b, k);
        JoinAt(CountsAfter(before, e.a), CountsAfter(before, e.b), k);
      }
    }
  }

  lemma {:induction false} CountsStayAmong(run: seq<CounterEvent>, ids: set<Id>, r: Id)
    requires Among(run, ids)
    ensures CountsAfter(run, r).Keys <= ids
    decreases |run|
  {
    if run != [] {
      var before, e := run[..|run| - 1], run[|run| - 1];
      assert forall i :: 0 <= i < |before| ==> before[i] == run[i];
      CountsStayAmong(before, ids, r);
      if e.Exchange? {
        CountsStayAmong(before, ids, e.a);
        CountsStayAmong(before, ids, e.b);
      }
    }
  }

  ghost function IssuedMap(run: seq<CounterEvent>, ids: set<Id>): Counts {
    map k | k in ids :: Issued(run, k)
  }

  lemma {:induction false} IssuedSumsToTotal(run: seq<CounterEvent>, ids: set<Id>)
    requires Among(run, ids)
    ensures SumOver(ids, IssuedMap(run, ids)) == Total(run)
    decreases |run|
  {
    if run == [] {
      SumAgrees({}, ids, map[], IssuedMap(run, ids));
    } else {
      var before, e := run[..|run| - 1], run[|run| - 1];
      assert forall i :: 0 <= i < |before| ==> before[i] == run[i];
      IssuedSumsToTotal(before, ids);
      var was := IssuedMap(before, ids);
      if e.Increment? {
        SumRaised(ids, was, e.at, e.n);
        assert IssuedMap(run, ids) == Raised(was, e.at, e.n);
      } else {
        assert IssuedMap(run, ids) == was;
      }
    }
  }

  ghost function Fleet(run: seq<CounterEvent>, ids: seq<Id>): map<Id, Counts> {
    map k | k in ids :: CountsAfter(run, k)
  }

  /** The joined count of a replica is what that replica issued, once it is among those joined. */
  lemma {:induction false} JoinedCount(run: seq<CounterEvent>, ids: seq<Id>, n: nat, k: Id)
    requires n < |ids|
    ensures var j := JoinUpTo(Join, Fleet(run, ids), ids, n);
            && Get(j, k) <= Issued(run, k)
            && (k in ids[..n + 1] ==> Get(j, k) == Issued(run, k))
            && (forall s :: Among(run, s) ==> j.Keys <= s)
  {
    assert ids[n] in ids && ids[0] in ids;
    CountsAreBounded(run, ids[n], k);
    forall s | Among(run, s)
      ensures CountsAfter(run, ids[n]).Keys <= s
    {
      CountsStayAmong(run, s, ids[n]);
    }
    if n > 0 {
      JoinedCount(run, ids, n - 1, k);
      assert ids[..n + 1] == ids[..n] + [ids[n]];
      JoinAt(JoinUpTo(Join, Fleet(run, ids), ids, n - 1), CountsAfter(run, ids[n]), k);
    }
  }

  /** After any run among a fleet, the state a reconciliation of the whole fleet agrees on has as its value the
      sum of all increments ever made anywhere. */
  lemma AgreedValueIsTotal(run: seq<CounterEvent>, ids: seq<Id>, keys: set<Id>)
    requires ids != [] && Enumerates(ids, keys) && Among(run, keys)
    ensures var agreed := JoinUpTo(Join, Fleet(run, ids), ids, |ids| - 1);
            SumOver(agreed.Keys, agreed) == Total(run)
  {
    var agreed := JoinUpTo(Join, Fleet(run, ids), ids, |ids| - 1);
    assert ids[..|ids|] == ids;
    forall k
      ensures k in keys ==> Get(agreed, k) == Issued(run, k)
      ensures agreed.Keys <= keys
    {
      JoinedCount(run, ids, |ids| - 1, k);
    }
    assert agreed.Keys <= keys;
    SumAgrees(agreed.Keys, keys, agreed, IssuedMap(run, keys));
    IssuedSumsToTotal(run, keys);
  }

  // ----- The up-down counter -----

  datatype UpDown = UpDown(positive: Counts, negative: Counts)

  function JoinUpDown(a: UpDown, b: UpDown): UpDown {
    UpDown(Join(a.positive, b.positive), Join(a.negative, b.negative))
  }

  predicate AnyUpDown(c: UpDown) { true }

  lemma JoinUpDownIsSemilattice()
    ensures Semilattice(JoinUpDown, AnyUpDown)
  {
    JoinIsSemilattice();
    forall a, b, c
      ensures JoinLaws(JoinUpDown, AnyUpDown, a, b, c)
    {
      Laws(Join, Always, a.positive, b.positive, c.positive);
      Laws(Join, Always, a.negative, b.negative, c.negative);
    }
  }

  class PNCounter {
    var replicaId: Id
    var positive: Counts
    var negative: Counts

    constructor (replicaId: Id, positive: Counts, negative: Counts)
      ensures this.replicaId == replicaId && this.positive == positive && this.negative == negative
    {
      this.replicaId := replicaId;
      this.positive := positive;
      this.negative := negative;
    }

    ghost function State(): UpDown
      reads this
    {
      UpDown(positive, negative)
    }

    method Increment(n: int)
      modifies this
      ensures replicaId == old(replicaId) && State() == Added(old(State()), replicaId, n)
      decreases if n < 0 then 1 else 0
    {
      if n < 0 {
        Decrement(-n);
      } else {
        positive := positive[replicaId := Get(positive, replicaId) + n];
      }
    }

    method Decrement(n: int)
      modifies this
      ensures replicaId == old(replicaId)
      ensures State() == if n < 0 then Added(old(State()), replicaId, -n)
                         else old(State()).(negative := Raised(old(negative), replicaId, n))
      decreases if n < 0 then 1 else 0
    {
      if n < 0 {
        Increment(-n);
      } else {
        negative := negative[replicaId := Get(negative, replicaId) + n];
      }
    }

    method Merge(other: PNCounter) returns (out: PNCounter)
      ensures fresh(out) && out.replicaId == replicaId && out.State() == JoinUpDown(State(), other.State())
    {
      var p := MergeCounts(positive, other.positive);
      var m := MergeCounts(negative, other.negative);
      out := new PNCounter(replicaId, p, m);
    }

    method Value() returns (v: int)
      ensures v == ValueOf(State())
    {
      var p: int := SumCounts(positive);
      var m: int := SumCounts(negative);
      return p - m;
    }
  }

  /** Adding a signed amount at replica r; a zero is an increment. */
  function Added(c: UpDown, r: Id, n: int): UpDown {
    if n < 0 then c.(negative := Raised(c.negative, r, -n))
    else c.(positive := Raised(c.positive, r, n))
  }

  ghost function ValueOf(c: UpDown): int {
    SumOver(c.positive.Keys, c.positive) - SumOver(c.negative.Keys, c.negative)
  }

  datatype UpDownEvent = Add(at: Id, n: int) | Swap(a: Id, b: Id)

  function UpDownAfter(run: seq<UpDownEvent>, r: Id): UpDown {
    if run == [] then UpDown(map[], map[]) else
    var before, e := run[..|run| - 1], run[|run| - 1];
    match e
    case Add(q, n) => if q == r then Added(UpDownAfter(before, r), r, n) else UpDownAfter(before, r)
    case Swap(a, b) =>
      if r == a || r == b then JoinUpDown(UpDownAfter(before, a), UpDownAfter(before, b)) else UpDownAfter(before, r)
  }

  /** The additions of one sign, with every exchange, as a run of a grow-only counter. */
  ghost function Side(run: seq<UpDownEvent>, up: bool): seq<CounterEvent> {
    if run == [] then [] else
    var e := run[|run| - 1];
    Side(run[..|run| - 1], up) + OnSide(e, up)
  }

  ghost function OnSide(e: UpDownEvent, up: bool): seq<CounterEvent> {
    match e
    case Add(at, n) => if up && n >= 0 then [Increment(at, n)] else if !up && n < 0 then [Increment(at, -n)] else []
    case Swap(a, b) => [Exchange(a, b)]
  }

  lemma SideSnoc(before: seq<UpDownEvent>, e: UpDownEvent, up: bool)
    ensures Side(before + [e], up) == Side(before, up) + OnSide(e, up)
  {
    assert (before + [e])[..|before|] == before;
  }

  lemma UpDownSnoc(before: seq<UpDownEvent>, e: UpDownEvent, r: Id)
    ensures e.Add? ==> UpDownAfter(before + [e], r) ==
                       if e.at == r then Added(UpDownAfter(before, r), r, e.n) else UpDownAfter(before, r)
    ensures e.Swap? ==> UpDownAfter(before + [e], r) ==
                        if r == e.a || r == e.b then JoinUpDown(UpDownAfter(before, e.a), UpDownAfter(before, e.b))
                        else UpDownAfter(before, r)
  {
    assert (before + [e])[..|before|] == before;
  }

  ghost function Net(run: seq<UpDownEvent>): int {
    if run == [] then 0 else
    var e := run[|run| - 1];
    Net(run[..|run| - 1]) + if e.Add? then e.n else 0
  }

  lemma CountsSnoc(run: seq<CounterEvent>, e: CounterEvent, r: Id)
    ensures e.Increment? ==> CountsAfter(run + [e], r) ==
                             if e.at == r then Raised(CountsAfter(run, r), r, e.n) else CountsAfter(run, r)
    ensures e.Exchange? ==> CountsAfter(run + [e], r) ==
                            if r == e.a || r == e.b then Join(CountsAfter(run, e.a), CountsAfter(run, e.b))
                              else CountsAfter(run, r)
  {
    assert (run + [e])[..|run|] == run;
  }

  ghost function Part(c: UpDown, up: bool): Counts {
    if up then c.positive else c.negative
  }

  lemma AddOnItsSide(before: seq<UpDownEvent>, at: Id, n: int, up: bool, r: Id)
    requires CountsAfter(Side(before, up), r) == Part(UpDownAfter(before, r), up)
    ensures CountsAfter(Side(before + [Add(at, n)], up), r) == Part(UpDownAfter(before + [Add(at, n)], r), up)
  {
    SideSnoc(before, Add(at, n), up);
    UpDownSnoc(before, Add(at, n), r);
    if up == (n >= 0) {
      CountsSnoc(Side(before, up), Increment(at, if n < 0 then -n else n), r);
    } else {
      assert Side(before, up) + [] == Side(before, up);
    }
  }

  lemma SwapOnBothSides(before: seq<UpDownEvent>, a: Id, b: Id, up: bool, r: Id)
    requires CountsAfter(Side(before, up), r) == Part(UpDownAfter(before, r), up)
    requires CountsAfter(Side(before, up), a) == Part(UpDownAfter(before, a), up)
    requires CountsAfter(Side(before, up), b) == Part(UpDownAfter(before, b), up)
    ensures CountsAfter(Side(before + [Swap(a, b)], up), r) == Part(UpDownAfter(before + [Swap(a, b)], r), up)
  {
    SideSnoc(before, Swap(a, b), up);
    UpDownSnoc(before, Swap(a, b), r);
    CountsSnoc(Side(before, up), Exchange(a, b), r);
  }

  lemma {:induction false} SideIsCounter(run: seq<UpDownEvent>, up: bool, r: Id)
    ensures CountsAfter(Side(run, up), r) == Part(UpDownAfter(run, r), up)
    decreases |run|
  {
    if run != [] {
      var before, e := run[..|run| - 1], run[|run| - 1];
      assert run == before + [e];
      SideIsCounter(before, up, r);
      match e {
        case Add(at, n) =>
          AddOnItsSide(before, at, n, up, r);
        case Swap(a, b) =>
          SideIsCounter(before, up, a);
          SideIsCounter(before, up, b);
          SwapOnBothSides(before, a, b, up, r);
      }
    }
  }

  lemma {:induction false} NetIsDifference(run: seq<UpDownEvent>)
    ensures Net(run) == Total(Side(run, true)) - Total(Side(run, false))
    decreases |run|
  {
    if run != [] {
      var before := run[..|run| - 1];
      NetIsDifference(before);
      assert Side(before, true) == Side(run, true) || Side(run, true)[..|Side(run, true)| - 1] == Side(before, true);
      assert Side(before, false) == Side(run, false)
             || Side(run, false)[..|Side(run, false)| - 1] == Side(before, false);
    }
  }

  ghost predicate UpDownAmong(run: seq<UpDownEvent>, ids: set<Id>) {
    forall i :: 0 <= i < |run| ==> if run[i].Add? then run[i].at in ids else run[i].a in ids && run[i].b in ids
  }

  lemma {:induction false} SideStaysAmong(run: seq<UpDownEvent>, up: bool, ids: set<Id>)
    requires UpDownAmong(run, ids)
    ensures Among(Side(run, up), ids)
    decreases |run|
  {
    if run != [] {
      var before := run[..|run| - 1];
      assert forall i :: 0 <= i < |before| ==> before[i] == run[i];
      SideStaysAmong(before, up, ids);
    }
  }

  ghost function UpDownFleet(run: seq<UpDownEvent>, ids: seq<Id>): map<Id, UpDown> {
    map k | k in ids :: UpDownAfter(run, k)
  }

  lemma {:induction false} JoinSplits(run: seq<UpDownEvent>, ids: seq<Id>, n: nat)
    requires n < |ids|
    ensures JoinUpTo(JoinUpDown, UpDownFleet(run, ids), ids, n) ==
            UpDown(JoinUpTo(Join, Fleet(Side(run, true), ids), ids, n),
              JoinUpTo(Join, Fleet(Side(run, false), ids), ids, n))
  {
    assert ids[n] in ids && ids[0] in ids;
    SideIsCounter(run, true, ids[n]);
    SideIsCounter(run, false, ids[n]);
    assert UpDownFleet(run, ids)[ids[n]] ==
           UpDown(Fleet(Side(run, true), ids)[ids[n]], Fleet(Side(run, false), ids)[ids[n]]);
    if n > 0 {
      JoinSplits(run, ids, n - 1);
    }
  }

  /** After any run, a reconciled fleet of up-down counters reads the net of everything ever added. */
  lemma AgreedValueIsNet(run: seq<UpDownEvent>, ids: seq<Id>, keys: set<Id>)
    requires ids != [] && Enumerates(ids, keys) && UpDownAmong(run, keys)
    ensures ValueOf(JoinUpTo(JoinUpDown, UpDownFleet(run, ids), ids, |ids| - 1)) == Net(run)
  {
    JoinSplits(run, ids, |ids| - 1);
    SideStaysAmong(run, true, keys);
    SideStaysAmong(run, false, keys);
    AgreedValueIsTotal(Side(run, true), ids, keys);
    AgreedValueIsTotal(Side(run, false), ids, keys);
    NetIsDifference(run);
  }
}
