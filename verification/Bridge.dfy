/** The two routes to an LCTLC/1.1 witness unit, lowering directly and translating the MSSL lowering, agree. */
module Bridge {
  import opened Common
  import opened Machine
  import opened Mssl
  import opened Lctlc
  import opened Reachability
  import opened Translate
  import opened Lowering

  function MsslUnit(words: seq<int>, accIn: int): seq<Line> {
    MSSL_HEADER + Each(MsslLine, Core(words, accIn))
  }

  /** A translated row under the direct route's names, and a direct row with its default mode left unsaid. */
  function Renamed(r: Row): Row {
    r.(id := RowId('W', r.id.number), lane := "w")
  }

  function Defaulted(r: Row): Row {
    if r.meta == WideMode(WRAP) then r.(meta := Wide) else r
  }

  lemma CoreRowTranslates(k: nat, i: Insn)
    requires IsCoreInsn(i)
    ensures MetaFor(i).Ok? && LiteralFits(i)
    ensures Renamed(RowOf(k, i, MetaFor(i).value)) == Defaulted(Lctlc11Row(k, i))
    ensures Needs(i.op, i.imm) <= {Cap.CONTROL, Cap.ARITH}
    ensures i.op != HALT ==> Successors(i, k) == [k + 1]
  {
  }

  /** Every row of a unit that runs straight down can be reached. */
  lemma {:induction false} StraightLineIsReachable(succ: Graph, k: nat)
    requires k < |succ| && forall j :: 0 <= j < |succ| - 1 ==> succ[j] == [j + 1]
    ensures Reachable(succ, k)
    decreases k
  {
    if k == 0 {
      ReachableStart(succ);
    } else {
      StraightLineIsReachable(succ, k - 1);
      ReachableStep(succ, k - 1, k);
    }
  }

  lemma WitnessUnitLowers(words: seq<int>, accIn: int, k: nat)
    requires k < |Core(words, accIn)|
    ensures |Code(MsslUnit(words, accIn))| == |Core(words, accIn)|
    ensures MetaFor(Core(words, accIn)[k]).Ok?
    ensures LoweredAt(MsslUnit(words, accIn), k) ==
            Ok((RowOf(k, Core(words, accIn)[k], MetaFor(Core(words, accIn)[k]).value), Core(words, accIn)[k]))
  {
    MsslCode(words, accIn);
    CoreIsCore(words, accIn);
    CoreRowTranslates(k, Core(words, accIn)[k]);
  }

  lemma WitnessUnitTranslates(words: seq<int>, accIn: int)
    ensures RowsTranslate(MsslUnit(words, accIn))
    ensures Insns(MsslUnit(words, accIn)) == Core(words, accIn)
  {
    WitnessUnitLowers(words, accIn, 0);
    forall k | 0 <= k < |Core(words, accIn)|
      ensures LoweredAt(MsslUnit(words, accIn), k).Ok?
              && LoweredAt(MsslUnit(words, accIn), k).value.1 == Core(words, accIn)[k]
    {
      WitnessUnitLowers(words, accIn, k);
    }
  }

  lemma HeaderHasNoFault(lines: seq<Line>, j: nat)
    requires MSSL_HEADER <= lines && j < |MSSL_HEADER|
    ensures LineFault(lines, j) == None
  {
    assert lines[j] == MSSL_HEADER[j];
    assert None !in [Some(Cap.CONTROL), Some(Cap.ARITH)];
  }

  lemma {:induction false} PlainLinesKeepCaps(lines: seq<Line>)
    requires forall l :: l in lines ==> l.Instruction?
    ensures DeclaredCaps(MSSL_HEADER + lines) == Some([Some(Cap.CONTROL), Some(Cap.ARITH)])
    decreases |lines|
  {
    var all := MSSL_HEADER + lines;
    if lines != [] {
      assert all[..|all| - 1] == MSSL_HEADER + lines[..|lines| - 1];
      PlainLinesKeepCaps(lines[..|lines| - 1]);
      assert all[|all| - 1] == lines[|lines| - 1] && lines[|lines| - 1] in lines;
    } else {
      assert all[|all| - 1] == MSSL_HEADER[3] == RequestCaps([Some(Cap.CONTROL), Some(Cap.ARITH)]);
    }
  }

  lemma PlainLinesHaveNoFault(lines: seq<Line>)
    requires forall l :: l in lines ==> l.Instruction?
    ensures NoLineFault(MSSL_HEADER + lines)
  {
    var all := MSSL_HEADER + lines;
    forall j | 0 <= j < |all|
      ensures LineFault(all, j) == None
    {
      if j < |MSSL_HEADER| {
        HeaderHasNoFault(all, j);
      } else {
        assert all[j] in lines;
      }
    }
  }

  lemma CoreRunsStraightDown(words: seq<int>, accIn: int)
    ensures var succ := Flow(Core(words, accIn));
            forall k :: 0 <= k < |succ| ==> Reachable(succ, k)
  {
    var core := Core(words, accIn);
    var succ := Flow(core);
    forall j | 0 <= j < |succ| - 1
      ensures succ[j] == [j + 1]
    {
      CoreIsCore(words, accIn);
      OnlyLastHalts(words, accIn, j);
      CoreRowTranslates(j, core[j]);
    }
    forall k | 0 <= k < |succ|
      ensures Reachable(succ, k)
    {
      StraightLineIsReachable(succ, k);
    }
  }

  lemma OnlyLastHalts(words: seq<int>, accIn: int, j: nat)
    requires j < |Core(words, accIn)| - 1
    ensures Core(words, accIn)[j].op != HALT
  {
    var b := |Body(words)|;
    if 2 <= j < 2 + b {
      BodyNeverHalts(words, j - 2);
    }
  }

  lemma {:induction false} BodyNeverHalts(words: seq<int>, j: nat)
    requires j < |Body(words)|
    ensures Body(words)[j].op != HALT
    decreases |words|
  {
    var before := words[..|words| - 1];
    if j < |Body(before)| {
      BodyNeverHalts(before, j);
    }
  }

  lemma WitnessCaps(words: seq<int>, accIn: int)
    requires words != []
    ensures InOrder(CAP_ORDER, Needed(Core(words, accIn))) == [Cap.CONTROL, Cap.ARITH]
  {
    forall c: Cap
      ensures c in Needed(Core(words, accIn)) <==> c in {Cap.CONTROL, Cap.ARITH}
    {
      CoreNeeds(words, accIn, c);
    }
    assert Needed(Core(words, accIn)) == {Cap.CONTROL, Cap.ARITH};
    TwoCapsInOrder();
  }

  lemma CoreNeeds(words: seq<int>, accIn: int, c: Cap)
    requires words != []
    ensures c in Needed(Core(words, accIn)) <==> c in {Cap.CONTROL, Cap.ARITH}
  {
    var core := Core(words, accIn);
    NeededIsUnion(core, c);
    CoreIsCore(words, accIn);
    CoreRow(words, accIn, 0);
    assert Needs(core[2].op, core[2].imm) == {Cap.ARITH} && Needs(core[0].op, core[0].imm) == {Cap.CONTROL};
    if c in Needed(core) {
      var k :| 0 <= k < |core| && c in Needs(core[k].op, core[k].imm);
      CoreRowTranslates(k, core[k]);
    }
  }

  lemma TwoCapsInOrder()
    ensures InOrder(CAP_ORDER, {Cap.CONTROL, Cap.ARITH}) == [Cap.CONTROL, Cap.ARITH]
  {
    var need := {Cap.CONTROL, Cap.ARITH};
    assert InOrder(CAP_ORDER[2..], need) == [] by {
      assert CAP_ORDER[2..] == [Cap.MEMORY, Cap.STACK, Cap.SERVICE, Cap.STATE, Cap.UPDATE, Cap.DIAG];
      assert InOrder([], need) == [] == InOrder([Cap.DIAG], need) == InOrder([Cap.UPDATE, Cap.DIAG], need)
             == InOrder([Cap.STATE, Cap.UPDATE, Cap.DIAG], need) ==
               InOrder([Cap.SERVICE, Cap.STATE, Cap.UPDATE, Cap.DIAG], need)
             == InOrder([Cap.STACK, Cap.SERVICE, Cap.STATE, Cap.UPDATE, Cap.DIAG], need);
    }
    assert CAP_ORDER[1..][1..] == CAP_ORDER[2..];
    assert InOrder(CAP_ORDER[1..], need) == [Cap.ARITH];
  }

  lemma WitnessUnitIsAcceptable(words: seq<int>, accIn: int)
    ensures Acceptable(MsslUnit(words, accIn))
    ensures DeclaredCaps(MsslUnit(words, accIn)) == Some([Some(Cap.CONTROL), Some(Cap.ARITH)])
  {
    var core := Core(words, accIn);
    CoreIsCore(words, accIn);
    forall l | l in Each(MsslLine, core)
      ensures l.Instruction?
    {
      var k :| 0 <= k < |core| && l == MsslLine(k, core[k]);
      MsslLineMeans(k, core[k], |core|);
    }
    PlainLinesHaveNoFault(Each(MsslLine, core));
    PlainLinesKeepCaps(Each(MsslLine, core));
    WitnessUnitTranslates(words, accIn);
    CoreRunsStraightDown(words, accIn);
  }

  lemma WitnessRowsAgree(words: seq<int>, accIn: int, k: nat)
    requires k < |Core(words, accIn)|
    ensures RowsTranslate(MsslUnit(words, accIn)) && |Rows(MsslUnit(words, accIn))| == |Core(words, accIn)|
    ensures Renamed(Rows(MsslUnit(words, accIn))[k]) == Defaulted(Lctlc11Row(k, Core(words, accIn)[k]))
  {
    WitnessUnitTranslates(words, accIn);
    WitnessUnitLowers(words, accIn, k);
    CoreIsCore(words, accIn);
    CoreRowTranslates(k, Core(words, accIn)[k]);
  }

  lemma WitnessUnitRows(words: seq<int>, accIn: int)
    ensures RowsTranslate(MsslUnit(words, accIn))
    ensures var rows := UnitOf(MsslUnit(words, accIn)).rows;
            && |rows| == |Core(words, accIn)|
            && forall k :: 0 <= k < |rows| ==> Renamed(rows[k]) == Defaulted(Each(Lctlc11Row, Core(words, accIn))[k])
  {
    WitnessUnitTranslates(words, accIn);
    forall k | 0 <= k < |Core(words, accIn)|
      ensures Renamed(Rows(MsslUnit(words, accIn))[k]) == Defaulted(Lctlc11Row(k, Core(words, accIn)[k]))
    {
      WitnessRowsAgree(words, accIn, k);
    }
  }

  lemma WitnessUnitCaps(words: seq<int>, accIn: int)
    requires words != []
    ensures RowsTranslate(MsslUnit(words, accIn))
    ensures UnitOf(MsslUnit(words, accIn)).caps == [Cap.CONTROL, Cap.ARITH]
  {
    WitnessUnitTranslates(words, accIn);
    WitnessCaps(words, accIn);
  }

  lemma WitnessUnitKeepsModes(words: seq<int>, accIn: int)
    ensures RowsTranslate(MsslUnit(words, accIn))
    ensures Dropped(Code(MsslUnit(words, accIn)), Insns(MsslUnit(words, accIn))) == []
  {
    WitnessUnitTranslates(words, accIn);
    CoreIsCore(words, accIn);
    NothingDropped(Code(MsslUnit(words, accIn)), Core(words, accIn));
  }

  /** Translating the MSSL lowering never refuses, and row by row equals the direct LCTLC/1.1 lowering up to row
      and lane names and the defaulted mode, with capabilities exactly CONTROL and ARITH. */
  lemma BridgeCommutes(words: seq<int>, accIn: int)
    requires words != []
    ensures Acceptable(MsslUnit(words, accIn))
    ensures var unit := UnitOf(MsslUnit(words, accIn));
            && |unit.rows| == |Core(words, accIn)|
            && (forall k :: 0 <= k < |unit.rows| ==>
                  Renamed(unit.rows[k]) == Defaulted(Each(Lctlc11Row, Core(words, accIn))[k]))
            && unit.caps == [Cap.CONTROL, Cap.ARITH]
            && DeclaredCaps(MsslUnit(words, accIn)).value == Quoted(unit.caps)
    ensures Dropped(Code(MsslUnit(words, accIn)), Insns(MsslUnit(words, accIn))) == []
  {
    WitnessUnitIsAcceptable(words, accIn);
    WitnessUnitRows(words, accIn);
    WitnessUnitCaps(words, accIn);
    WitnessUnitKeepsModes(words, accIn);
  }

  lemma {:induction false} NothingDropped(code: seq<Source>, insns: seq<Insn>)
    requires |code| == |insns| && forall k :: 0 <= k < |insns| ==> insns[k].mode == WRAP
    ensures Dropped(code, insns) == []
    decreases |insns|
  {
    if insns != [] {
      NothingDropped(code[..|insns| - 1], insns[..|insns| - 1]);
    }
  }

  /** The bridge run end to end: the translator accepts every unit the MSSL lowering produces. */
  method TranslateLowering(words: seq<int>, accIn: int) returns (r: Result<Translation, LoweringRefused>)
    ensures r.Ok? <==> 1 <= |words| <= BR_MAX_ROWS
    ensures r.Ok? ==> RowsTranslate(MsslUnit(words, accIn))
                      && r.value == Translation(UnitOf(MsslUnit(words, accIn)), map[], [], false)
  {
    var lowered := LowerMssl(words, accIn);
    if lowered.Refused? {
      return Refused(lowered.reason);
    }
    BridgeCommutes(words, accIn);
    MsslCode(words, accIn);
    var t := Translate.Translate(lowered.value);
    return Ok(t.value);
  }
}
