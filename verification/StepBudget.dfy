/** The step budget of a translated unit: the number of its rows and one more. It suffices exactly where control
    flow has no cycle. */
module StepBudget {
  import opened Common
  import opened Machine
  import opened Mssl
  import opened Lctlc
  import opened Reachability
  import opened Translate

  lemma ExecFollowsFlow(m: Machine, i: Insn, s: State)
    requires s.status == Running
    ensures Exec(m, i, s).status == Running ==> Exec(m, i, s).ip in Successors(i, s.ip)
  {
  }

  /** The rows a readable row passes control to are those of its meaning. */
  lemma FlowOfMeaning(rows: seq<Row>, k: nat)
    requires k < |rows| && Meaning(rows, rows[k]).Some?
    ensures RowSuccessors(rows, k) == Successors(Meaning(rows, rows[k]).value, k)
  {
  }

  lemma StepFollowsFlow(m: Machine, rows: seq<Row>, s: State)
    requires s.status == Running && Step(m, Fetch(rows), s).status == Running
    ensures s.ip < |rows| && Step(m, Fetch(rows), s).ip in RowFlow(rows)[s.ip]
  {
    FlowOfMeaning(rows, s.ip);
    ExecFollowsFlow(m, Fetch(rows)(s.ip).value, s);
  }

  /** A run that is still going has walked that many rows. */
  lemma {:induction false} RunsWalk(m: Machine, rows: seq<Row>, s: State, steps: nat) returns (p: seq<nat>)
    requires steps > 0 && Run(m, Fetch(rows), s, steps).status == Running
    ensures IsWalk(RowFlow(rows), p) && |p| == steps && p[0] == s.ip
    decreases steps
  {
    var t := Step(m, Fetch(rows), s);
    WasRunning(m, Fetch(rows), s, 0, steps);
    WasRunning(m, Fetch(rows), s, 1, steps);
    assert Run(m, Fetch(rows), s, 1) == Run(m, Fetch(rows), t, 0) == t;
    StepFollowsFlow(m, rows, s);
    if steps == 1 {
      p := [s.ip];
    } else {
      var q := RunsWalk(m, rows, t, steps - 1);
      p := [s.ip] + q;
    }
  }

  /** Rows without a cycle in their control flow stop, from any state and on any machine, within one step more than
      there are rows. */
  lemma AcyclicRowsStop(m: Machine, rows: seq<Row>, s: State)
    requires Acyclic(RowFlow(rows))
    ensures Run(m, Fetch(rows), s, |rows| + 1).status != Running
  {
    if Run(m, Fetch(rows), s, |rows| + 1).status == Running {
      var p := RunsWalk(m, rows, s, |rows| + 1);
      AcyclicWalksAreShort(RowFlow(rows), p);
    }
  }

  /** Without a cycle in the control flow the emitted max_steps always reaches a halt or a trap. */
  lemma AcyclicProgramsFitTheirBudget(m: Machine, lines: seq<Line>, s: State)
    requires RowsTranslate(lines) && Acyclic(RowFlow(UnitOf(lines).rows))
    ensures Run(m, Fetch(UnitOf(lines).rows), s, UnitOf(lines).maxSteps).status != Running
  {
    AcyclicRowsStop(m, Rows(lines), s);
  }

  /** For an accepted program: every path through the emitted rows stays below max_steps exactly when there is no
      cycle, and with one there are paths of every length. */
  lemma BudgetCoversFlowIffAcyclic(lines: seq<Line>)
    requires Acceptable(lines)
    ensures PathsBelow(RowFlow(UnitOf(lines).rows), UnitOf(lines).maxSteps) <==> Acyclic(RowFlow(UnitOf(lines).rows))
    ensures !Acyclic(RowFlow(UnitOf(lines).rows)) ==>
              forall n: nat :: n > 0 ==> HasPath(RowFlow(UnitOf(lines).rows), n)
  {
    EmittedRowsAreReachable(lines);
    PathsAreShortIffAcyclic(RowFlow(Rows(lines)));
  }

  ghost predicate ForwardOnly(lines: seq<Line>)
    requires RowsTranslate(lines)
  {
    forall k :: 0 <= k < |Code(lines)| && IsBranch(Insns(lines)[k].op) ==> Insns(lines)[k].imm > k
  }

  /** Forward branches make no cycle. */
  lemma ForwardIsAcyclic(lines: seq<Line>)
    requires RowsTranslate(lines) && ForwardOnly(lines)
    ensures Acyclic(RowFlow(UnitOf(lines).rows))
  {
    EmittedRowsAreReachable(lines);
    RankedIsAcyclic(Flow(Insns(lines)), (k: nat) => k);
  }

  // ----- Two programs with a branch back -----

  function JumpTo(k: nat): Insn {
    Insn(JMP, WRAP, 0, 0, 0, 0, k)
  }

  function JumpLine(target: string): Line {
    Instruction([Token("JMP.WRAP", Head(Some(JMP), Some(WRAP))), Token(target, Plain), Token("C0", CapabilityName(0))])
  }

  function HaltLine(): Line {
    Instruction([Token("HALT.WRAP", Head(Some(HALT), Some(WRAP))), Token("C0", CapabilityName(0))])
  }

  lemma JumpAssembles(target: string, labels: map<string, nat>, count: nat)
    requires target in labels && labels[target] < count
    ensures Assemble(JumpLine(target).toks, labels, count) == Ok(JumpTo(labels[target]))
  {
    var toks := JumpLine(target).toks;
    var blank, jump := JumpTo(0), JumpTo(labels[target]);
    var goal, slot := toks[1], toks[2];
    assert toks[1..] == [goal, slot] && [goal, slot][1..] == [slot] && [slot][1..] == [];
    assert WithField(blank, Target, goal, labels, count) == Ok(jump);
    assert WithField(jump, Cc, slot, labels, count) == Ok(jump);
    assert [Target, Cc][1..] == [Cc] && [Cc][1..] == [];
    assert Operands(jump, [Cc], [slot], labels, count) == Operands(jump, [], [], labels, count) == Ok(jump);
    assert Operands(blank, [Target, Cc], [goal, slot], labels, count) == Ok(jump);
  }

  lemma HaltAssembles(labels: map<string, nat>, count: nat)
    ensures Assemble(HaltLine().toks, labels, count) == Ok(Insn(HALT, WRAP, 0, 0, 0, 0, 0))
  {
    var toks, halt := HaltLine().toks, Insn(HALT, WRAP, 0, 0, 0, 0, 0);
    assert toks[1..] == [toks[1]] && [toks[1]][1..] == [] && [Cc][1..] == [];
    assert Operands(halt, [Cc], [toks[1]], labels, count) == Operands(halt, [], [], labels, count) == Ok(halt);
  }

  /** A program that jumps over its halt and back to it: five lines, three instructions. */
  function ThereAndBack(): seq<Line> {
    [RequestCaps([Some(Cap.CONTROL)]), JumpLine("over"), Label("stop"), HaltLine(), Label("over"), JumpLine("stop")]
  }

  lemma ThereAndBackReads()
    ensures var lines := ThereAndBack();
            && Labels(lines) == map["stop" := 1, "over" := 2] && NoLineFault(lines) && DeclaredCaps(lines).Some?
            && Code(lines) == [Source(2, JumpLine("over").toks), Source(4, HaltLine().toks),
               Source(6, JumpLine("stop").toks)]
  {
    var all := ThereAndBack();
    var one, two, three, four, five := all[..1], all[..2], all[..3], all[..4], all[..5];
    assert all[..5] == five && five[..4] == four && four[..3] == three && three[..2] == two && two[..1] == one
           && one[..0] == [];
    assert Labels([]) == map[] && Code([]) == [] && DeclaredCaps(one).Some? && Code(one) == [] && Labels(one) == map[];
    assert Code(two) == [Source(2, JumpLine("over").toks)] && Labels(two) == map[] && DeclaredCaps(two).Some?;
    assert Code(three) == Code(two) && Labels(three) == map["stop" := 1] && DeclaredCaps(three).Some?;
    assert Code(four) == Code(two) + [Source(4, HaltLine().toks)] && Labels(four) == Labels(three);
    assert DeclaredCaps(four).Some?;
    assert Code(five) == Code(four) && Labels(five) == map["stop" := 1, "over" := 2] && DeclaredCaps(five).Some?;
    assert forall j :: 0 <= j < 6 ==> LineFault(all, j) == None;
  }

  lemma ThereAndBackRows()
    ensures var lines := ThereAndBack();
            && RowsTranslate(lines) && |Code(lines)| == 3
            && Insns(lines)[0] == JumpTo(2) && Insns(lines)[1].op == HALT && Insns(lines)[2] == JumpTo(1)
  {
    var lines := ThereAndBack();
    ThereAndBackReads();
    JumpAssembles("over", Labels(lines), 3);
    HaltAssembles(Labels(lines), 3);
    JumpAssembles("stop", Labels(lines), 3);
    assert LoweredAt(lines, 0).Ok? && LoweredAt(lines, 1).Ok? && LoweredAt(lines, 2).Ok?;
  }

  lemma ThereAndBackFlow(flow: Graph)
    requires |flow| == 3 && flow[0] == [2] && flow[1] == [] && flow[2] == [1]
    ensures Acyclic(flow) && forall k :: 0 <= k < 3 ==> Reachable(flow, k)
  {
    ReachableStart(flow);
    ReachableStep(flow, 0, 2);
    ReachableStep(flow, 2, 1);
    RankedIsAcyclic(flow, (k: nat) => if k == 0 then 0 else if k == 2 then 1 else 2);
  }

  lemma ThereAndBackAccepted(lines: seq<Line>)
    requires NoLineFault(lines) && DeclaredCaps(lines).Some? && RowsTranslate(lines) && |Code(lines)| == 3
    requires Insns(lines)[0] == JumpTo(2) && Insns(lines)[1].op == HALT && Insns(lines)[2] == JumpTo(1)
    ensures Acceptable(lines) && !ForwardOnly(lines) && Acyclic(RowFlow(UnitOf(lines).rows))
  {
    var flow := Flow(Insns(lines));
    assert flow[0] == [2] && flow[1] == [] && flow[2] == [1];
    ThereAndBackFlow(flow);
    EmittedRowsAreReachable(lines);
  }

  /** A branch back need not make a cycle: this program is accepted, has one, and fits its budget. */
  lemma BackwardBranchCanFit(m: Machine, s: State)
    ensures Acceptable(ThereAndBack()) && !ForwardOnly(ThereAndBack()) && UnitOf(ThereAndBack()).maxSteps == 4
    ensures Run(m, Fetch(UnitOf(ThereAndBack()).rows), s, 4).status != Running
  {
    ThereAndBackReads();
    ThereAndBackRows();
    ThereAndBackAccepted(ThereAndBack());
    AcyclicProgramsFitTheirBudget(m, ThereAndBack(), s);
  }

  /** A program that jumps to itself: three lines, one instruction. */
  function Spin(): seq<Line> {
    [RequestCaps([Some(Cap.CONTROL)]), Label("spin"), JumpLine("spin")]
  }

  lemma SpinReads()
    ensures Labels(Spin()) == map["spin" := 0] && Code(Spin()) == [Source(3, JumpLine("spin").toks)]
    ensures NoLineFault(Spin()) && DeclaredCaps(Spin()).Some?
  {
    var all := Spin();
    assert all[..2] == [all[0], all[1]] && all[..1] == [all[0]] && all[..0] == [];
    assert all[..2][..1] == [all[0]] && [all[0]][..0] == [];
    assert Labels([]) == map[] && Code([]) == [];
    assert Labels([all[0]]) == map[] && Code([all[0]]) == [];
    assert Labels(all[..2]) == map["spin" := 0] && Code(all[..2]) == [];
    assert DeclaredCaps([all[0]]).Some? && DeclaredCaps(all[..2]).Some?;
  }

  lemma SpinLowers()
    ensures |Code(Spin())| == 1 && LoweredAt(Spin(), 0).Ok? && LoweredAt(Spin(), 0).value.1 == JumpTo(0)
  {
    SpinReads();
    JumpAssembles("spin", Labels(Spin()), 1);
  }

  lemma SpinRows()
    ensures RowsTranslate(Spin()) && Insns(Spin()) == [JumpTo(0)]
  {
    SpinLowers();
    assert |Insns(Spin())| == 1 && Insns(Spin())[0] == JumpTo(0);
  }

  lemma SpinTranslates()
    ensures Acceptable(Spin()) && LiteralsFit(Spin())
    ensures Insns(Spin()) == [JumpTo(0)]
  {
    SpinReads();
    SpinRows();
    ReachableStart(Flow(Insns(Spin())));
  }

  lemma {:induction false} StaysPut(m: Machine, fetch: nat -> Option<Insn>, s: State, steps: nat)
    requires Step(m, fetch, s) == s
    ensures Run(m, fetch, s, steps) == s
    decreases steps
  {
    if steps > 0 {
      StaysPut(m, fetch, s, steps - 1);
    }
  }

  lemma SpinFetches()
    ensures RowsTranslate(Spin()) && Fetch(Rows(Spin()))(0) == Some(JumpTo(0))
  {
    SpinTranslates();
    TranslatedRow(Spin(), 0);
  }

  lemma JumpsBack(m: Machine, fetch: nat -> Option<Insn>, s: State)
    requires s.status == Running && s.ip == 0 && m.mayUse(0, JMP, s) && fetch(0) == Some(JumpTo(0))
    ensures Step(m, fetch, s) == s
  {
  }

  /** The step budget is no bound when a branch goes back: this program is accepted and is still running after any
      number of steps. */
  lemma SpinOutlivesItsBudget(m: Machine, s: State, steps: nat)
    requires s.status == Running && s.ip == 0 && m.mayUse(0, JMP, s)
    ensures Acceptable(Spin()) && Run(m, Fetch(Rows(Spin())), s, steps).status == Running
  {
    SpinTranslates();
    SpinFetches();
    JumpsBack(m, Fetch(Rows(Spin())), s);
    StaysPut(m, Fetch(Rows(Spin())), s, steps);
  }
}
