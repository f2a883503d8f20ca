/** The last-writer-wins register with its three clock policies, over every run of exchanges and of writes whose
    timestamps, automatic or given, rise at their own replica. A value is known by its place in the order of
    canonical texts. */
module LwwRegister {
  import opened Common
  import opened AntiEntropy
  import opened Clocks

  datatype Policy = LAMPORT | WALL_CLOCK | VERSION_VECTOR

  /** `value` is the canonical text's rank; NO_VALUE is the text of the initial null. */
  datatype Register = Register(value: int, timestamp: int, writer: Id, version: Counts)

  const NO_VALUE: int := 0

  function Fresh(r: Id): Register {
    Register(NO_VALUE, 0, r, map[])
  }

  /** A write takes the given timestamp, or the next one. */
  function StampFor(s: Register, stamp: Option<int>): int {
    if stamp.Some? then stamp.value else s.timestamp + 1
  }

  function Written(s: Register, r: Id, value: int, stamp: Option<int>): Register {
    var t := StampFor(s, stamp);
    Register(value, t, r, s.version[r := if Get(s.version, r) >= t then Get(s.version, r) else t])
  }

  /** Timestamp, then writer, then canonical text. */
  predicate Later(a: Register, b: Register) {
    if a.timestamp != b.timestamp then a.timestamp > b.timestamp
    else if a.writer != b.writer then a.writer.rank > b.writer.rank
    else a.value > b.value
  }

  predicate Beats(policy: Policy, a: Register, b: Register) {
    if policy == VERSION_VECTOR && Dominates(a.version, b.version) then true else Later(a, b)
  }

  function MergeRegisters(policy: Policy, a: Register, b: Register): Register {
    (if Beats(policy, a, b) then a else b).(version := Join(a.version, b.version))
  }

  /** The merge of registers that share a policy. */
  function MergeUnder(policy: Policy): (Register, Register) -> Register {
    (a, b) => MergeRegisters(policy, a, b)
  }

  datatype MergeFailure = PolicyMismatch

  class LWWRegister {
    const policy: Policy
    var replicaId: Id
    var value: int
    var timestamp: int
    var writer: Id
    var version: Counts

    function State(): Register
      reads this
    {
      Register(value, timestamp, writer, version)
    }

    constructor (replicaId: Id, policy: Policy, s: Register)
      ensures this.replicaId == replicaId && this.policy == policy && State() == s
    {
      this.replicaId := replicaId;
      this.policy := policy;
      value, timestamp, writer, version := s.value, s.timestamp, s.writer, s.version;
    }

    method Set(v: int, stamp: Option<int>)
      modifies this
      ensures replicaId == old(replicaId) && State() == Written(old(State()), replicaId, v, stamp)
      ensures value == v && writer == replicaId
              && timestamp == (if stamp.Some? then stamp.value else old(timestamp) + 1)
      ensures forall k :: Get(version, k) ==
                if k == replicaId && timestamp > old(Get(version, k)) then timestamp else old(Get(version, k))
    {
      timestamp := if stamp.Some? then stamp.value else timestamp + 1;
      value := v;
      writer := replicaId;
      var own := Get(version, replicaId);
      version := version[replicaId := if own >= timestamp then own else timestamp];
    }

    /** Registers with different policies are never merged. */
    method Merge(other: LWWRegister) returns (r: Result<LWWRegister, MergeFailure>)
      ensures r.Ok? <==> policy == other.policy
      ensures r.Ok? ==> && fresh(r.value) && r.value.replicaId == replicaId && r.value.policy == policy
                        && r.value.State() == MergeRegisters(policy, State(), other.State())
    {
      if policy != other.policy {
        return Refused(PolicyMismatch);
      }
      var joined := MergeCounts(version, other.version);
      var win := if Beats(policy, State(), other.State()) then State() else other.State();
      var out := new LWWRegister(replicaId, policy, win.(version := joined));
      return Ok(out);
    }
  }

  // ----- What runs keep true -----

  /** The timestamp is the largest version entry, and the writer is the greatest id attaining it. */
  ghost predicate Stamped(s: Register) {
    && s.timestamp >= 0 && (forall k :: Get(s.version, k) <= s.timestamp)
    && (s.timestamp > 0 ==> Get(s.version, s.writer) == s.timestamp)
    && (forall k :: s.timestamp > 0 && Get(s.version, k) == s.timestamp ==> k.rank <= s.writer.rank)
    && (s.timestamp == 0 ==> s.value == NO_VALUE && s.version == map[])
  }

  /** What has been written: the value of each write, by timestamp and writer. */
  datatype Stamp = Stamp(timestamp: int, writer: Id)

  type History = map<Stamp, int>

  /** A register agrees with the history: its value is the one written under its timestamp and writer. */
  ghost predicate Recorded(s: Register, h: History) {
    Stamped(s) && (s.timestamp > 0 ==> Stamp(s.timestamp, s.writer) in h && h[Stamp(s.timestamp, s.writer)] == s.value)
  }

  /** Under any policy the same one of two recorded registers wins. */
  lemma PoliciesAgree(h: History, a: Register, b: Register, p: Policy, q: Policy)
    requires Recorded(a, h) && Recorded(b, h)
    ensures MergeRegisters(p, a, b) == MergeRegisters(q, a, b)
  {
    PolicyIsLamport(h, a, b, p);
    PolicyIsLamport(h, a, b, q);
  }

  lemma PolicyIsLamport(h: History, a: Register, b: Register, p: Policy)
    requires Recorded(a, h) && Recorded(b, h)
    ensures MergeRegisters(p, a, b) == MergeRegisters(LAMPORT, a, b)
  {
    if Dominates(a.version, b.version) {
      AtLeastEverywhere(a.version, b.version);
      assert Get(a.version, b.writer) >= Get(b.version, b.writer);
    }
  }

  /** Merging recorded registers is keeping the later stamp and joining the versions. */
  lemma MergeIsRecorded(h: History, a: Register, b: Register, p: Policy)
    requires Recorded(a, h) && Recorded(b, h)
    ensures Recorded(MergeRegisters(p, a, b), h)
  {
    PolicyIsLamport(h, a, b, p);
    var m := MergeRegisters(LAMPORT, a, b);
    forall k
      ensures Get(m.version, k) ==
              if Get(a.version, k) >= Get(b.version, k) then Get(a.version, k) else Get(b.version, k)
    {
      JoinAt(a.version, b.version, k);
    }
    if m.timestamp == 0 {
      assert Join(a.version, b.version) == map[];
    }
  }

  ghost function RecordedIn(h: History): Register -> bool {
    s => Recorded(s, h)
  }

  /** Every policy's merge is commutative, associative and idempotent on the registers of one history. */
  lemma MergeIsSemilattice(h: History, p: Policy)
    ensures Semilattice(MergeUnder(p), RecordedIn(h))
  {
    forall a, b, c
      ensures JoinLaws(MergeUnder(p), RecordedIn(h), a, b, c)
    {
      if Recorded(a, h) && Recorded(b, h) && Recorded(c, h) {
        MergeLaws(h, p, a, b, c);
      }
    }
  }

  function Winner(a: Register, b: Register): Register {
    if Later(a, b) then a else b
  }

  /** Choosing the later of recorded registers does not depend on order or grouping: equal stamps carry equal
      values. */
  lemma WinnerLaws(h: History, a: Register, b: Register, c: Register)
    requires Recorded(a, h) && Recorded(b, h) && Recorded(c, h)
    ensures var v := a.version;
            && Winner(a, b).(version := v) == Winner(b, a).(version := v)
            && Winner(Winner(a, b).(version := b.version), c).(version := v) ==
               Winner(a, Winner(b, c).(version := c.version)).(version := v)
  {
  }

  lemma MergeLaws(h: History, p: Policy, a: Register, b: Register, c: Register)
    requires Recorded(a, h) && Recorded(b, h) && Recorded(c, h)
    ensures Recorded(MergeRegisters(p, a, b), h)
    ensures MergeRegisters(p, a, b) == MergeRegisters(p, b, a)
    ensures MergeRegisters(p, a, a) == a
    ensures MergeRegisters(p, MergeRegisters(p, a, b), c) == MergeRegisters(p, a, MergeRegisters(p, b, c))
  {
    MergeIsRecorded(h, a, b, p);
    MergeIsRecorded(h, b, c, p);
    JoinIsSemilattice();
    Laws(Join, Always, a.version, b.version, c.version);
    WinnerLaws(h, a, b, c);
    MergeByWinner(h, a, b, p);
    MergeByWinner(h, b, a, p);
    MergeByWinner(h, b, c, p);
    MergeByWinner(h, a, a, p);
    MergeByWinner(h, MergeRegisters(p, a, b), c, p);
    MergeByWinner(h, a, MergeRegisters(p, b, c), p);
  }

  lemma MergeByWinner(h: History, a: Register, b: Register, p: Policy)
    requires Recorded(a, h) && Recorded(b, h)
    ensures MergeRegisters(p, a, b) == Winner(a, b).(version := Join(a.version, b.version))
  {
    PolicyIsLamport(h, a, b, p);
  }

  /** The later timestamp, then the greater writer, then the greater canonical text. */
  predicate AtLeastAsLate(a: Register, b: Register) {
    || a.timestamp > b.timestamp
    || (a.timestamp == b.timestamp && a.writer.rank > b.writer.rank)
    || (a.timestamp == b.timestamp && a.writer == b.writer && a.value >= b.value)
  }

  /** A merge keeps one of the two writes: under the version-vector policy the receiver's if its version strictly
      dominates, and otherwise, as under the other policies, the one that is at least as late. */
  lemma MergeKeepsTheLater(policy: Policy, a: Register, b: Register)
    ensures var m := MergeRegisters(policy, a, b);
            && (forall k :: Get(m.version, k) == if Get(a.version, k) >= Get(b.version, k) then Get(a.version, k)
               else Get(b.version, k))
            && (m == a.(version := m.version) || m == b.(version := m.version))
            && if policy == VERSION_VECTOR && (forall k :: Get(a.version, k) >= Get(b.version, k))
                  && (exists k :: Get(a.version, k) > Get(b.version, k)) then m == a.(version := m.version)
               else AtLeastAsLate(m, a) && AtLeastAsLate(m, b)
  {
    AtLeastEverywhere(a.version, b.version);
    forall k
      ensures Get(Join(a.version, b.version), k) ==
              if Get(a.version, k) >= Get(b.version, k) then Get(a.version, k) else Get(b.version, k)
    {
      JoinAt(a.version, b.version, k);
    }
    if k :| Get(a.version, k) > Get(b.version, k) {
      assert k in a.version;
    }
  }

  /** Off the runs, with timestamps set by hand, the version-vector policy commutes on exactly those pairs where
      neither register dominates the other while having the earlier stamp. */
  lemma VersionVectorCommutesExactly(a: Register, b: Register)
    ensures MergeRegisters(VERSION_VECTOR, a, b) == MergeRegisters(VERSION_VECTOR, b, a) <==>
            !(Dominates(a.version, b.version) && Later(b, a)) && !(Dominates(b.version, a.version) && Later(a, b))
  {
    JoinIsSemilattice();
    Laws(Join, Always, a.version, b.version, b.version);
    DominanceIsStrictOrder(a.version, b.version, b.version);
  }

  /** Two copies of one replica's register, the newer written with a lowered timestamp, are such a pair. */
  lemma LoweredTimestampBreaksCommutativity(x: Id)
    ensures var older := Written(Fresh(x), x, 1, Some(5));
            var newer := Written(Written(older, x, 2, Some(6)), x, 3, Some(1));
            MergeRegisters(VERSION_VECTOR, newer, older) != MergeRegisters(VERSION_VECTOR, older, newer)
  {
    var older := Written(Fresh(x), x, 1, Some(5));
    var newer := Written(Written(older, x, 2, Some(6)), x, 3, Some(1));
    assert Get(newer.version, x) == 6 && Get(older.version, x) == 5 && x in newer.version;
    assert Dominates(newer.version, older.version);
    VersionVectorCommutesExactly(newer, older);
  }

  // ----- Runs -----

  datatype RegisterEvent = Set(at: Id, value: int, stamp: Option<int>) | Exchange(a: Id, b: Id)

  /** What replica r holds after the run, under one policy. */
  function RegisterAfter(p: Policy, run: seq<RegisterEvent>, r: Id): Register {
    if run == [] then Fresh(r) else
    var before, e := run[..|run| - 1], run[|run| - 1];
    match e
    case Set(q, v, t) => if q == r then Written(RegisterAfter(p, before, r), r, v, t) else RegisterAfter(p, before, r)
    case Exchange(a, b) =>
      if r == a || r == b then MergeRegisters(p, RegisterAfter(p, before, a), RegisterAfter(p, before, b))
      else RegisterAfter(p, before, r)
  }

  /** What the run has written, by stamp. */
  ghost function Writes(p: Policy, run: seq<RegisterEvent>): History {
    if run == [] then map[] else
    var before, e := run[..|run| - 1], run[|run| - 1];
    match e
    case Set(q, v, t) => Writes(p, before)[Stamp(StampFor(RegisterAfter(p, before, q), t), q) := v]
    case Exchange(_, _) => Writes(p, before)
  }

  /** The stamp (t, r) is later than the one the register carries. */
  predicate Rises(s: Register, r: Id, t: int) {
    t > 0 && (t > s.timestamp || (t == s.timestamp && r.rank > s.writer.rank))
  }

  /** A timestamp given with write i is later, with its replica's id, than what that replica holds. */
  ghost predicate RisesAt(p: Policy, run: seq<RegisterEvent>, i: nat)
    requires i < |run|
  {
    run[i].Set? && run[i].stamp.Some? ==> Rises(RegisterAfter(p, run[..i], run[i].at), run[i].at, run[i].stamp.value)
  }

  /** Timestamps that are given rise, as wall-clock readings do; automatic ones always do. */
  ghost predicate Rising(p: Policy, run: seq<RegisterEvent>) {
    forall i {:trigger RisesAt(p, run, i)} :: 0 <= i < |run| ==> RisesAt(p, run, i)
  }

  lemma RisingPrefix(p: Policy, run: seq<RegisterEvent>)
    requires Rising(p, run) && run != []
    ensures Rising(p, run[..|run| - 1])
    ensures var e := run[|run| - 1];
            e.Set? && e.stamp.Some? ==> Rises(RegisterAfter(p, run[..|run| - 1], e.at), e.at, e.stamp.value)
  {
    var before := run[..|run| - 1];
    forall i | 0 <= i < |before|
      ensures RisesAt(p, before, i)
    {
      assert RisesAt(p, run, i);
      assert before[..i] == run[..i] && before[i] == run[i];
    }
    assert RisesAt(p, run, |run| - 1);
  }

  /** Runs in which every write takes an automatic timestamp are rising. */
  lemma AutomaticRises(p: Policy, run: seq<RegisterEvent>)
    requires forall i :: 0 <= i < |run| && run[i].Set? ==> run[i].stamp == None
    ensures Rising(p, run)
  {
  }

  /** A write keeps the timestamp the largest version entry and the writer the greatest id attaining it, and carries a
      stamp its replica never used, exactly when its stamp is later than the one it replaces. */
  lemma WriteKeepsStampIffItRises(s: Register, r: Id, value: int, stamp: Option<int>)
    requires Stamped(s)
    ensures Rises(s, r, StampFor(s, stamp)) <==>
            Stamped(Written(s, r, value, stamp)) && Get(s.version, r) < StampFor(s, stamp)
    ensures stamp == None ==> Rises(s, r, StampFor(s, stamp))
  {
    var w, t := Written(s, r, value, stamp), StampFor(s, stamp);
    assert Get(s.version, r) <= s.timestamp;
    forall k
      ensures Get(w.version, k) == if k == r && t > Get(s.version, r) then t else Get(s.version, k)
    {
    }
    if Stamped(w) && Get(s.version, r) < t {
      assert Get(w.version, s.writer) <= t;
    }
  }

  /** No replica knows of a later write by k than k itself. */
  lemma {:induction false} OwnEntryIsLatest(p: Policy, run: seq<RegisterEvent>, r: Id, k: Id)
    ensures Get(RegisterAfter(p, run, r).version, k) <= Get(RegisterAfter(p, run, k).version, k)
    decreases |run|
  {
    if run != [] {
      var before, e := run[..|run| - 1], run[|run| - 1];
      OwnEntryIsLatest(p, before, r, k);
      if e.Exchange? {
        OwnEntryIsLatest(p, before, e.a, k);
        OwnEntryIsLatest(p, before, e.b, k);
        JoinAt(RegisterAfter(p, before, e.a).version, RegisterAfter(p, before, e.b).version, k);
      }
    }
  }

  /** In every run, each replica's timestamp is its largest version entry, its writer the greatest id attaining
      it, and timestamp and writer together determine the value across the fleet. */
  lemma {:induction false} RunsAreRecorded(p: Policy, run: seq<RegisterEvent>, r: Id)
    requires Rising(p, run)
    ensures Recorded(RegisterAfter(p, run, r), Writes(p, run))
    decreases |run|
  {
    if run != [] {
      var before, e := run[..|run| - 1], run[|run| - 1];
      RisingPrefix(p, run);
      RunsAreRecorded(p, before, r);
      match e {
        case Set(q, v, t) =>
          RunsAreRecorded(p, before, q);
          OwnEntryIsLatest(p, before, r, q);
          WriteKeepsStampIffItRises(RegisterAfter(p, before, q), q, v, t);
        case Exchange(a, b) =>
          RunsAreRecorded(p, before, a);
          RunsAreRecorded(p, before, b);
          MergeIsRecorded(Writes(p, before), RegisterAfter(p, before, a), RegisterAfter(p, before, b), p);
      }
    }
  }

  lemma StampDeterminesValue(p: Policy, run: seq<RegisterEvent>, r: Id, s: Id)
    requires Rising(p, run)
    requires RegisterAfter(p, run, r).timestamp == RegisterAfter(p, run, s).timestamp
    requires RegisterAfter(p, run, r).writer == RegisterAfter(p, run, s).writer
    ensures RegisterAfter(p, run, r).value == RegisterAfter(p, run, s).value
  {
    RunsAreRecorded(p, run, r);
    RunsAreRecorded(p, run, s);
  }

  /** The three policies drive every run through the same states. */
  lemma {:induction false} PolicyDoesNotMatter(p: Policy, q: Policy, run: seq<RegisterEvent>, r: Id)
    requires Rising(p, run)
    ensures RegisterAfter(p, run, r) == RegisterAfter(q, run, r)
    decreases |run|
  {
    if run != [] {
      var before, e := run[..|run| - 1], run[|run| - 1];
      RisingPrefix(p, run);
      PolicyDoesNotMatter(p, q, before, r);
      if e.Exchange? {
        PolicyDoesNotMatter(p, q, before, e.a);
        PolicyDoesNotMatter(p, q, before, e.b);
        RunsAreRecorded(p, before, e.a);
        RunsAreRecorded(p, before, e.b);
        PoliciesAgree(Writes(p, before), RegisterAfter(p, before, e.a), RegisterAfter(p, before, e.b), p, q);
      }
    }
  }

  ghost function Fleet(p: Policy, run: seq<RegisterEvent>, ids: seq<Id>): map<Id, Register> {
    map k | k in ids :: RegisterAfter(p, run, k)
  }

  lemma AbsorbedIsNotLater(h: History, a: Register, b: Register, p: Policy)
    requires Recorded(a, h) && Recorded(b, h) && MergeRegisters(p, a, b) == b
    ensures !Later(a, b)
  {
    MergeByWinner(h, a, b, p);
  }

  lemma FleetIsRecorded(p: Policy, run: seq<RegisterEvent>, ids: seq<Id>)
    requires Rising(p, run)
    ensures forall k :: k in Fleet(p, run, ids) ==> RecordedIn(Writes(p, run))(Fleet(p, run, ids)[k])
  {
    forall k | k in ids
      ensures Recorded(RegisterAfter(p, run, k), Writes(p, run))
    {
      RunsAreRecorded(p, run, k);
    }
  }

  /** What recorded registers join to is recorded, and at least as late as each of them. */
  lemma JoinIsLatest(h: History, p: Policy, start: map<Id, Register>, ids: seq<Id>, i: nat)
    requires i < |ids| && (forall k :: 0 <= k < |ids| ==> ids[k] in start)
    requires forall k :: k in start ==> RecordedIn(h)(start[k])
    ensures var agreed := JoinUpTo(MergeUnder(p), start, ids, |ids| - 1);
            Recorded(agreed, h) && !Later(start[ids[i]], agreed)
  {
    var merge, dom := MergeUnder(p), RecordedIn(h);
    MergeIsSemilattice(h, p);
    JoinUpToInside(merge, dom, start, ids, |ids| - 1);
    var agreed := JoinUpTo(merge, start, ids, |ids| - 1);
    JoinIsLeastUpperBound(merge, dom, start, ids, |ids| - 1, agreed);
    assert ids[i] in start;
    assert merge(start[ids[i]], agreed) == agreed;
    AbsorbedIsNotLater(h, start[ids[i]], agreed, p);
  }

  /** What a reconciled fleet agrees on carries a recorded write at least as late as any replica's. */
  lemma AgreedIsLatest(p: Policy, run: seq<RegisterEvent>, ids: seq<Id>, i: nat)
    requires i < |ids| && Rising(p, run)
    ensures var agreed := JoinUpTo(MergeUnder(p), Fleet(p, run, ids), ids, |ids| - 1);
            Recorded(agreed, Writes(p, run)) && !Later(RegisterAfter(p, run, ids[i]), agreed)
  {
    FleetIsRecorded(p, run, ids);
    assert ids[i] in ids;
    JoinIsLatest(Writes(p, run), p, Fleet(p, run, ids), ids, i);
  }
}
