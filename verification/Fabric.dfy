/** Driving the nodes: the fail-closed differential check of one segment, the chain of segments on one node, and
    the replica and pipeline programs across nodes. What a native machine answers is an arbitrary function. */
module Fabric {
  import opened Common
  import opened Arith64
  import opened RowWitness
  import opened Machine
  import opened Lowering
  import Translate

  /** What the native toolchain reports for its n-th job: a result, or failure. */
  type NativeVm = (nat, Program) -> Option<int>

  datatype AdapterRefusal = Bound(why: LoweringRefused) | ExecutionFailed | Disagreement | BadSegmentSize

  datatype SegmentResult = SegmentResult(node: NodeId, rows: nat, accIn: nat, nativeWitness: nat, referenceWitness: nat,
                                         instructions: nat)

  predicate Fits(node: NodeId, words: seq<int>) {
    words != [] && InstructionCount(|words|) <= Ceiling(node)
  }

  /** A native machine that, given any program meaning the witness program, answers with the witness. */
  ghost predicate Faithful(vm: NativeVm) {
    forall job, p, words, accIn :: AnswersRight(vm, job, p, words, accIn)
  }

  ghost predicate AnswersRight(vm: NativeVm, job: nat, p: Program, words: seq<int>, accIn: int) {
    Holds(Executable(p), Core(words, accIn)) ==>
      vm(job, p).Some? && Low64(vm(job, p).value) == Witness(words, accIn)
  }

  class NodeAdapter {
    const node: NodeId
    const vm: NativeVm
    var jobs: nat
    var last: Option<SegmentResult>

    constructor (node: NodeId, vm: NativeVm)
      ensures this.node == node && this.vm == vm && jobs == 0 && last == None
    {
      this.node := node;
      this.vm := vm;
      jobs := 0;
      last := None;
    }

    /** A result is reported, and remembered, only if it equals the reference witness. */
    method SubmitWords(words: seq<int>, accIn: int) returns (r: Result<SegmentResult, AdapterRefusal>)
      modifies this
      ensures r.Ok? ==> && r.value == SegmentResult(node, |words|, Low64(accIn), Witness(words, accIn),
                                                    Witness(words, accIn), InstructionCount(|words|))
                        && last == Some(r.value) && Fits(node, words) && jobs == old(jobs) + 1
      ensures r.Refused? ==> last == old(last)
      ensures r.Refused? && r.reason.Bound? <==> !Fits(node, words)
      ensures Faithful(vm) ==> (r.Ok? <==> Fits(node, words))
    {
      var lowered := LoweringRecord(node, words, accIn);
      if lowered.Refused? {
        return Refused(Bound(lowered.reason));
      }
      var rec := lowered.value;
      assert Faithful(vm) ==> AnswersRight(vm, jobs, rec.program, words, accIn);
      var answer := vm(jobs, rec.program);
      jobs := jobs + 1;
      if answer == None {
        return Refused(ExecutionFailed);
      }
      var native := Low64(answer.value);
      if native != rec.referenceWitness {
        return Refused(Disagreement);
      }
      var out := SegmentResult(node, |words|, Low64(accIn), native, rec.referenceWitness, rec.instructions);
      last := Some(out);
      return Ok(out);
    }

    /** Segment i of a chain, started from where the one before ended. */
    method SubmitSegment(segs: seq<seq<int>>, i: nat, acc: nat) returns (r: Result<SegmentResult, AdapterRefusal>)
      requires i < |segs| && acc == After(segs, i)
      modifies this
      ensures r.Ok? ==> Link(r.value, segs, i) && r.value.node == node
      ensures Faithful(vm) && 1 <= |segs[i]| <= MaxRows(node) ==> r.Ok?
    {
      AfterSteps(segs, i);
      if 1 <= |segs[i]| <= MaxRows(node) {
        SegmentFits(node, segs[i]);
      }
      r := SubmitWords(segs[i], acc);
    }
  }

  datatype ChainResult = ChainResult(node: NodeId, rows: nat, segments: nat, nativeWitness: nat, referenceWitness: nat,
                                     agreement: bool, records: seq<SegmentResult>)

  /** The accumulator after the first i segments. */
  ghost function After(segs: seq<seq<int>>, i: nat): nat
    requires i <= |segs|
  {
    Fold(FNV_OFFSET, Concat(segs[..i]))
  }

  /** Record i covers segment i and starts where record i - 1 ended. */
  ghost predicate Link(record: SegmentResult, segs: seq<seq<int>>, i: nat)
    requires i < |segs|
  {
    record.rows == |segs[i]| && record.accIn == After(segs, i) && record.nativeWitness == After(segs, i + 1)
  }

  ghost predicate Linked(records: seq<SegmentResult>, segs: seq<seq<int>>) {
    |records| <= |segs| && forall i :: 0 <= i < |records| ==> Link(records[i], segs, i)
  }

  lemma AfterSteps(segs: seq<seq<int>>, i: nat)
    requires i < |segs|
    ensures After(segs, i) < WORD && After(segs, i + 1) < WORD
    ensures After(segs, i + 1) == Witness(segs[i], After(segs, i))
  {
    assert segs[..i + 1] == segs[..i] + [segs[i]];
    ConcatSnoc(segs[..i], segs[i]);
    FoldAppend(FNV_OFFSET, Concat(segs[..i]), segs[i]);
    FoldBound(FNV_OFFSET, Concat(segs[..i]));
    FoldBound(FNV_OFFSET, Concat(segs[..i + 1]));
  }

  lemma AfterBounds(segs: seq<seq<int>>)
    ensures After(segs, 0) == FNV_OFFSET
    ensures After(segs, |segs|) == Witness(Concat(segs), FNV_OFFSET)
  {
    assert segs[..0] == [] && segs[..|segs|] == segs;
  }

  lemma SegmentFits(node: NodeId, seg: seq<int>)
    requires 1 <= |seg| <= MaxRows(node)
    ensures Fits(node, seg)
  {
  }

  lemma BrSegmentsFit(node: NodeId)
    ensures BR_MAX_ROWS <= MaxRows(node)
  {
  }

  /** The whole list on one node, segment after segment. Whatever the node answers, the call either refuses or
      returns the reference witness of the whole list; a faithful node is never refused. */
  method ChainTask(node: NodeId, vm: NativeVm, words: seq<int>, maxRows: int)
    returns (r: Result<ChainResult, AdapterRefusal>)
    ensures r.Ok? ==> && maxRows >= 1
                      && r.value.nativeWitness == r.value.referenceWitness == Witness(words, FNV_OFFSET)
                      && r.value.agreement && r.value.node == node && r.value.rows == |words|
                      && r.value.segments == |Segments(words, maxRows)| == |r.value.records|
                      && Linked(r.value.records, Segments(words, maxRows))
    ensures 1 <= maxRows <= MaxRows(node) && Faithful(vm) ==> r.Ok?
    ensures maxRows < 1 ==> r == Refused(BadSegmentSize)
  {
    if maxRows < 1 {
      return Refused(BadSegmentSize);
    }
    var adapter := new NodeAdapter(node, vm);
    var acc := FNV_OFFSET;
    var segs := Segments(words, maxRows);
    AfterBounds(segs);
    var records: seq<SegmentResult> := [];
    for i := 0 to |segs|
      invariant adapter.node == node && adapter.vm == vm && fresh(adapter)
      invariant acc == After(segs, i)
      invariant |records| == i && Linked(records, segs)
    {
      var s := adapter.SubmitSegment(segs, i, acc);
      if s.Refused? {
        return Refused(s.reason);
      }
      acc := s.value.nativeWitness;
      records := records + [s.value];
    }
    var ref := ReferenceWitnessWords(words, FNV_OFFSET);
    return Ok(ChainResult(node, |words|, |segs|, acc, ref, acc == ref, records));
  }

  datatype Token = Agree | Disagree

  datatype LogEvent = SegmentHandoff(segment: nat, accIn: nat, accOut: nat, next: nat)
                    | ReplicaVerdict(token: Token, folded: nat)
                    | PipelineVerdict(token: Token, folded: nat)

  datatype PipelineResult = PipelineResult(segments: nat, finalWitness: nat, referenceWitness: nat, token: Token,
                                           chain: seq<SegmentResult>)

  datatype ReplicaResult = ReplicaResult(results: seq<ChainResult>, referenceWitness: nat, token: Token)

  /** The events of the first n segments: each hands over what the next one starts from. */
  ghost function Handoffs(segs: seq<seq<int>>, n: nat): seq<LogEvent>
    requires n <= |segs|
  {
    if n == 0 then [] else Handoffs(segs, n - 1) + [SegmentHandoff(n - 1, After(segs, n - 1), After(segs, n), n)]
  }

  /** How many segments the placement list covers. */
  function Placed(segs: seq<seq<int>>, placement: seq<NodeId>): (n: nat)
    ensures n <= |segs| && n <= |placement|
  {
    if |placement| < |segs| then |placement| else |segs|
  }

  class FabricRun {
    const nodes: seq<NodeId>
    const vms: NodeId -> NativeVm
    var log: seq<LogEvent>

    constructor (nodes: seq<NodeId>, vms: NodeId -> NativeVm)
      ensures this.nodes == nodes && this.vms == vms && log == []
    {
      this.nodes := nodes;
      this.vms := vms;
      log := [];
    }

    /** Every bound node folds the whole list on its own. */
    method Replica(words: seq<int>) returns (r: Result<ReplicaResult, AdapterRefusal>)
      modifies this
      ensures r.Ok? ==> && r.value.token == Agree && r.value.referenceWitness == Witness(words, FNV_OFFSET)
                        && |r.value.results| == |nodes|
                        && (forall i :: 0 <= i < |nodes| ==>
                              && r.value.results[i].node == nodes[i]
                              && r.value.results[i].nativeWitness == Witness(words, FNV_OFFSET))
                        && log == old(log) + [ReplicaVerdict(Agree, Witness(words, FNV_OFFSET))]
      ensures (forall n :: n in nodes ==> Faithful(vms(n))) ==> r.Ok?
      ensures r.Refused? ==> log == old(log)
    {
      var results: seq<ChainResult> := [];
      var agree := true;
      var ref := ReferenceWitnessWords(words, FNV_OFFSET);
      for i := 0 to |nodes|
        invariant |results| == i && log == old(log)
        invariant forall j :: 0 <= j < i ==> results[j].node == nodes[j]
                                             && results[j].nativeWitness == Witness(words, FNV_OFFSET)
        invariant agree
      {
        var c := ChainTask(nodes[i], vms(nodes[i]), words, MaxRows(nodes[i]));
        if c.Refused? {
          return Refused(c.reason);
        }
        results := results + [c.value];
        agree := agree && c.value.nativeWitness == ref;
      }
      var token := if agree then Agree else Disagree;
      log := log + [ReplicaVerdict(token, ref)];
      return Ok(ReplicaResult(results, ref, token));
    }

    /** Segment i runs on the node placed for it and hands its accumulator on, as far as the placement goes. */
    method HandOn(segs: seq<seq<int>>, placement: seq<NodeId>)
      returns (r: Result<(nat, seq<SegmentResult>), AdapterRefusal>)
      requires forall i :: 0 <= i < |segs| ==> 1 <= |segs[i]| <= BR_MAX_ROWS
      modifies this
      ensures var done := Placed(segs, placement);
              r.Ok? ==> && r.value.0 == After(segs, done) && |r.value.1| == done && Linked(r.value.1, segs)
                        && (forall i :: 0 <= i < done ==> r.value.1[i].node == placement[i])
                        && log == old(log) + Handoffs(segs, done)
      ensures (forall n :: n in placement ==> Faithful(vms(n))) ==> r.Ok?
    {
      AfterBounds(segs);
      var acc := FNV_OFFSET;
      var chain: seq<SegmentResult> := [];
      var done := Placed(segs, placement);
      for i := 0 to done
        invariant acc == After(segs, i)
        invariant |chain| == i && Linked(chain, segs)
        invariant forall j :: 0 <= j < i ==> chain[j].node == placement[j]
        invariant log == old(log) + Handoffs(segs, i)
      {
        BrSegmentsFit(placement[i]);
        var adapter := new NodeAdapter(placement[i], vms(placement[i]));
        var s := adapter.SubmitSegment(segs, i, acc);
        if s.Refused? {
          return Refused(s.reason);
        }
        log := log + [SegmentHandoff(i, acc, s.value.nativeWitness, i + 1)];
        acc := s.value.nativeWitness;
        chain := chain + [s.value];
      }
      return Ok((acc, chain));
    }

    /** The chain across nodes and its verdict. A placement list shorter than the segment list cuts the chain short,
        and then the verdict says whether the shorter chain agreed. */
    method Pipeline(words: seq<int>, placement: seq<NodeId>) returns (r: Result<PipelineResult, AdapterRefusal>)
      modifies this
      ensures r.Ok? ==>
                var segs := Segments(words, BR_MAX_ROWS);
                var done := Placed(segs, placement);
                && r.value.segments == |segs| && |r.value.chain| == done && Linked(r.value.chain, segs)
                && (forall i :: 0 <= i < done ==> r.value.chain[i].node == placement[i])
                && r.value.finalWitness == After(segs, done)
                && r.value.referenceWitness == Witness(words, FNV_OFFSET)
                && (r.value.token == Agree <==> r.value.finalWitness == Witness(words, FNV_OFFSET))
                && (|placement| >= |segs| ==> r.value.token == Agree)
                && log == old(log) + Handoffs(segs, done) + [PipelineVerdict(r.value.token, r.value.finalWitness)]
      ensures (forall n :: n in placement ==> Faithful(vms(n))) ==> r.Ok?
    {
      var segs := Segments(words, BR_MAX_ROWS);
      var handed := HandOn(segs, placement);
      if handed.Refused? {
        return Refused(handed.reason);
      }
      AfterBounds(segs);
      var acc := handed.value.0;
      var ref := ReferenceWitnessWords(words, FNV_OFFSET);
      var token := if acc == ref then Agree else Disagree;
      log := log + [PipelineVerdict(token, acc)];
      return Ok(PipelineResult(|segs|, acc, ref, token, handed.value.1));
    }
  }

  // ----- A machine that runs what it is given is faithful -----

  function Reset(): State {
    State(0, [0, 0, 0, 0, 0, 0, 0, 0, 0, 0, 0, 0, 0, 0, 0, 0], false, map[], [], 0, Running)
  }

  /** Run the program on machine m for the given number of steps and report R2 if it halted. */
  function RunNatively(m: Machine, p: Program, steps: nat): Option<int> {
    var t := Run(m, Executable(p), Reset(), steps);
    if t.status == Halted then Some(t.regs[2]) else None
  }

  const STEP_MARGIN: nat := 8

  /** A machine at least 64 bits wide that executes the program it is given, with a budget that covers it, answers
      with the reference witness. */
  lemma ExecutingMachineAnswers(m: Machine, p: Program, words: seq<int>, accIn: int, budget: nat)
    requires WrapsWide(m) && Holds(Executable(p), Core(words, accIn)) && budget >= InstructionCount(|words|)
    ensures var answer := RunNatively(m, p, budget);
            answer.Some? && Low64(answer.value) == Witness(words, accIn)
  {
    LoweredProgramComputesWitness(m, Executable(p), words, accIn, Reset());
    HaltIsReported(m, p, InstructionCount(|words|), budget);
  }

  lemma HaltIsReported(m: Machine, p: Program, steps: nat, budget: nat)
    requires budget >= steps && Run(m, Executable(p), Reset(), steps).status == Halted
    ensures RunNatively(m, p, budget) == Some(Run(m, Executable(p), Reset(), steps).regs[2])
  {
    HaltedStays(m, Executable(p), Reset(), steps, budget - steps);
  }

  /** How many positions a program has. */
  function Length(p: Program): nat {
    match p
    case MsslText(lines) => |Translate.Code(lines)|
    case Lctlc11(unit) => |unit.rows|
    case Lctlc12(rows) => |rows|
    case Qvm(rows) => |rows|
  }

  lemma NothingBeyondLength(p: Program, ip: nat)
    requires ip >= Length(p)
    ensures Executable(p)(ip) == None
  {
  }

  lemma LengthCovers(p: Program, words: seq<int>, accIn: int)
    requires Holds(Executable(p), Core(words, accIn))
    ensures InstructionCount(|words|) <= Length(p)
  {
    var last := InstructionCount(|words|) - 1;
    assert Executable(p)(last) == Some(Core(words, accIn)[last]);
    if last >= Length(p) {
      NothingBeyondLength(p, last);
    }
  }

  /** The native machine that runs every program for as many steps as it has positions and a margin. */
  function Runner(m: Machine): NativeVm {
    (job: nat, p: Program) => RunNatively(m, p, Length(p) + STEP_MARGIN)
  }

  /** On a machine at least 64 bits wide that one is faithful, so what is promised of faithful nodes is promised of
      something. */
  lemma RunnerIsFaithful(m: Machine)
    requires WrapsWide(m)
    ensures Faithful(Runner(m))
  {
    forall job, p, words, accIn
      ensures AnswersRight(Runner(m), job, p, words, accIn)
    {
      if Holds(Executable(p), Core(words, accIn)) {
        LengthCovers(p, words, accIn);
        ExecutingMachineAnswers(m, p, words, accIn, Length(p) + STEP_MARGIN);
      }
    }
  }

  lemma HaltedStays(m: Machine, fetch: nat -> Option<Insn>, s: State, n: nat, more: nat)
    requires Run(m, fetch, s, n).status != Running
    ensures Run(m, fetch, s, n + more) == Run(m, fetch, s, n)
  {
    RunSplits(m, fetch, s, n, more);
    StoppedStays(m, fetch, Run(m, fetch, s, n), more);
  }
}
