/** Which codes the verifier reports for a row: each exactly when its cause is there. */
module OwnershipFaults {
  import opened Common
  import opened Prefixes
  import opened Catalog
  import opened Text
  import opened OwnershipVerifier
  import opened LinearMachine
  import opened OwnershipRules

  // ----- What the words, places and gates of a row are reported for -----

  predicate WordFault(r: Row, c: Code) {
    match c
    case E_FACE_001 => !r.face.Known?
    case E_REG_001 => r.face.Known? && r.regime.Unknown?
    case E_OP_001 => r.face.Known? && r.op.UnknownOp?
    case E_TYPE_001 => r.face.Known? && !r.op.UnknownOp? && r.kind.UnknownType?
    case E_FAM_001 => r.face.Known? && !r.op.UnknownOp? && r.family.Unknown?
    case E_CONF_001 =>
      r.face.Known? && !r.op.UnknownOp? && r.confidence.Some? && (r.confidence.value < 0.0 || r.confidence.value > 1.0)
    case _ => false
  }

  predicate PlaceFault(rows: seq<Row>, i: nat, c: Code)
    requires i < |rows|
  {
    var r := rows[i];
    match c
    case E_NODE_001 => r.node != NULL_CELL && !Declared(rows, i, DECLARE_NODE, r.node)
    case E_DOM_001 => r.domain != NULL_CELL && r.node == NULL_CELL && !Declared(rows, i, DECLARE_DOMAIN, r.domain)
    case E_LINK_001 => r.link != NULL_CELL && !Declared(rows, i, DECLARE_LINK, r.link)
    case _ => false
  }

  ghost predicate GateFault(r: Row, c: Code) {
    match c
    case E_ARITY_001 =>
      || (OneQubit(r.op) && Operands(r) != 1)
      || (TwoQubit(r.op) && Operands(r) != 2)
      || (ThreeQubit(r.op) && Operands(r) != 3)
    case E_PARAM_001 => r.op in {RX, RY, RZ, PHASE, U} && r.params == []
    case E_CTRL_001 => Controls(r.op) && !Apart(r.ctrl, r.a)
    case E_PROB_001 => Noisy(r.op) && exists i :: 0 <= i < |r.params| && !(0.0 <= r.params[i] <= 1.0)
    case _ => false
  }

  ghost predicate ProtocolFault(rows: seq<Row>, i: nat, c: Code)
    requires i < |rows|
  {
    var r := rows[i];
    match c
    case E_CLONE_001 => r.op in {TENSOR, MERGE} && !Apart(r.a, r.b)
    case E_PROTO_001 => r.op == TELEPORT && (r.a.ref == None || r.out.ref == None)
    case E_PROTO_002 => r.op == TELEPORT && r.a.ref.Some? && r.out.ref.Some? && r.link == NULL_CELL
    case E_EPR_001 => r.op in {ENTANGLE_LINK, EPR_RESERVE} && r.link == NULL_CELL
    case E_PROTO_004 => r.op in {REMOTE_CNOT, REMOTE_CONTROL} && r.link == NULL_CELL
    case E_CTL_002 => Conditional(r) && ConditionName(r) == NULL_CELL
    case E_CTL_003 => Conditional(r) && ConditionName(r) != NULL_CELL && !ResultNamed(rows, i, ConditionName(r))
    case E_REG_002 => SaysExact(r) && Noisy(r.op)
    case E_REG_003 => SaysExact(r) && r.approx
    case _ => false
  }

  predicate Conditional(r: Row) {
    r.op in {CLASSICAL_IF, CLASSICAL_SWITCH, FEEDBACK, CLASSICAL_FEEDBACK}
  }

  function ConditionName(r: Row): string {
    if r.ctrl.text != NULL_CELL then r.ctrl.text else r.a.text
  }

  predicate SaysExact(r: Row) {
    r.regime in {Known("EXACT"), Known("EXACT_LINEAR"), Known("PIECEWISE_EXACT")}
  }

  // ----- What the objects of a row are reported for -----

  /** The code an operand earns by what became of it. */
  predicate ObjectFault(b: Book, r: Row, k: Key, c: Code) {
    match c
    case E_OWN_001 => k in b.own && b.own[k].state == MOVED
    case E_OWN_002 => k in b.own && b.own[k].state == MEASURED
    case E_OWN_006 => k in b.own && b.own[k].state == RELEASED
    case E_OWN_003 =>
      k in b.own && b.own[k].state == LIVE && b.own[k].node != NULL_CELL && b.own[k].node != r.node && !Crosses(r.op)
    case E_OWN_005 => k !in b.own && MustBeQuantum(r, k)
    case _ => false
  }

  ghost predicate OwnershipFault(b: Book, r: Row, c: Code) {
    || (exists k :: Mentions(r, k) && ObjectFault(b, r, k, c))
    || (c == E_PROTO_003 && Moving(r) && !SourcesThere(b, r, Pairs(r)))
    || (r.op == EPR_RELEASE && exists k :: RefersTo(r.a, k) && ReleaseFault(b, k, c))
    || (c == W_PROTO_005 && r.op in {REMOTE_CNOT, REMOTE_CONTROL} && SameNode(b, r))
  }

  predicate ReleaseFault(b: Book, k: Key, c: Code) {
    (c == E_EPR_002 && k !in b.own) || (c == E_EPR_003 && k in b.own && b.own[k].state == RELEASED)
  }

  /** Control and target, each by its first index, are recorded at one node. */
  predicate SameNode(b: Book, r: Row) {
    && r.ctrl.ref.Some? && r.a.ref.Some?
    && First(r.ctrl.ref.value) in b.own && First(r.a.ref.value) in b.own
    && b.own[First(r.ctrl.ref.value)].node == b.own[First(r.a.ref.value)].node
  }

  function First(x: Ref): Key {
    match x.lo case None => Whole(x.name) case Some(i) => Indexed(x.name, i)
  }

  // ----- The checks one by one -----

  lemma WordsHave(r: Row, c: Code)
    ensures c in SchemaCodes(r) <==> WordFault(r, c)
  {
  }

  lemma PlacesHave(n: Names, rows: seq<Row>, i: nat, c: Code)
    requires i < |rows| && NamesAre(n, rows, i)
    ensures c in ReferenceCodes(n, rows[i]) <==> PlaceFault(rows, i, c)
  {
    var r := rows[i];
    assert NameIs(n, rows, i, r.node) && NameIs(n, rows, i, r.domain) && NameIs(n, rows, i, r.link);
  }

  lemma {:induction false} ProbabilitiesHave(params: seq<real>, c: Code)
    ensures c in BadProbabilities(params) <==>
            c == E_PROB_001 && exists i :: 0 <= i < |params| && !(0.0 <= params[i] <= 1.0)
    decreases |params|
  {
    if params != [] {
      ProbabilitiesHave(params[1..], c);
      assert params == [params[0]] + params[1..];
      if i :| 0 <= i < |params| && !(0.0 <= params[i] <= 1.0) && i > 0 {
        assert params[1..][i - 1] == params[i];
      }
      if i :| 0 <= i < |params[1..]| && !(0.0 <= params[1..][i] <= 1.0) {
        assert params[i + 1] == params[1..][i];
      }
    }
  }

  lemma ShapesHave(r: Row, c: Code)
    ensures c in ShapeCodes(r) <==>
            (c == E_ARITY_001 && GateFault(r, E_ARITY_001)) || (c == E_PARAM_001 && GateFault(r, E_PARAM_001))
  {
    ArityIs(r.op);
    OperandsAre(r);
  }

  lemma GatesHave(r: Row, c: Code)
    ensures c in GateCodes(r) <==> GateFault(r, c)
  {
    var clash := If(IsControlled(r.op) && Meet(r.ctrl, r.a), E_CTRL_001);
    var noise := if IsNoise(r.op) then BadProbabilities(r.params) else [];
    assert GateCodes(r) == ShapeCodes(r) + clash + noise;
    ShapesHave(r, c);
    ControlsIs(r.op);
    MeetsUnlessApart(r.ctrl, r.a);
    NoisyIs(r.op);
    ProbabilitiesHave(r.params, c);
  }

  lemma ClonesHave(r: Row, c: Code)
    ensures c in CloneCodes(r) <==> c == E_CLONE_001 && r.op in {TENSOR, MERGE} && !Apart(r.a, r.b)
  {
    MeetsUnlessApart(r.a, r.b);
  }

  lemma ProtocolsHave(rows: seq<Row>, i: nat, c: Code)
    requires i < |rows|
    ensures c in ProtocolCodes(rows[i]) <==>
            c in {E_PROTO_001, E_PROTO_002, E_EPR_001, E_PROTO_004} && ProtocolFault(rows, i, c)
  {
  }

  lemma ConditionsHave(n: Names, rows: seq<Row>, i: nat, c: Code)
    requires i < |rows| && NamesAre(n, rows, i)
    ensures c in ControlCodes(n, rows[i]) <==> c in {E_CTL_002, E_CTL_003} && ProtocolFault(rows, i, c)
  {
    assert NameIs(n, rows, i, ConditionName(rows[i]));
  }

  lemma HonestyHas(rows: seq<Row>, i: nat, c: Code)
    requires i < |rows|
    ensures c in HonestyCodes(rows[i]) <==> c in {E_REG_002, E_REG_003} && ProtocolFault(rows, i, c)
  {
    NoisyIs(rows[i].op);
  }

  lemma UseHas(b: Book, r: Row, k: Key, c: Code)
    ensures c in UseCodes(b.own, r, k) <==> ObjectFault(b, r, k, c)
  {
    CrossesIs(r.op);
    LooksQuantumIs(r, k);
  }

  lemma {:induction false} UsesHave(own: Owners, r: Row, keys: seq<Key>, c: Code)
    ensures c in AllUseCodes(own, r, keys) <==> exists k :: k in keys && c in UseCodes(own, r, k)
    decreases |keys|
  {
    if keys != [] {
      var before, last := keys[..|keys| - 1], keys[|keys| - 1];
      assert keys == before + [last];
      UsesHave(own, r, before, c);
    }
  }

  lemma ObjectsHave(b: Book, r: Row, c: Code)
    ensures c in AllUseCodes(b.own, r, Uses(r)) <==> exists k :: Mentions(r, k) && ObjectFault(b, r, k, c)
  {
    UsesHave(b.own, r, Uses(r), c);
    forall k
      ensures k in Uses(r) <==> Mentions(r, k)
      ensures c in UseCodes(b.own, r, k) <==> ObjectFault(b, r, k, c)
    {
      UsesAreMentions(r, k);
      UseHas(b, r, k, c);
    }
  }

  lemma {:induction false} OnlyUnprepared(b: Book, r: Row, moves: seq<(Key, Key)>, c: Code)
    ensures c in TeleportCodes(b, r, moves) <==> c == E_PROTO_003 && !Clean(TeleportCodes(b, r, moves))
    decreases |moves|
  {
    if moves != [] {
      var before := moves[..|moves| - 1];
      OnlyUnprepared(b, r, before, c);
      OnlyUnprepared(b, r, before, E_PROTO_003);
      var last := If(moves[|moves| - 1].0 !in TeleportAll(b, r, before).own, E_PROTO_003);
      CleanJoin(TeleportCodes(b, r, before), last);
    }
  }

  lemma {:induction false} ReleasesHave(b: Book, r: Row, keys: seq<Key>, c: Code)
    requires LinearMachine.NoRepeats(keys)
    ensures c in ReleaseCodes(b.own, r, keys) <==> exists k :: k in keys && ReleaseFault(b, k, c)
    decreases |keys|
  {
    if keys != [] {
      var before, last := keys[..|keys| - 1], keys[|keys| - 1];
      assert keys == before + [last];
      ReleasesHave(b, r, before, c);
      assert last !in before;
      ReleaseFrame(b.own, r, before, last);
      var so := Release(b.own, r, before);
      var more := if last !in so then [E_EPR_002] else If(so[last].state == RELEASED, E_EPR_003);
      assert c in more <==> ReleaseFault(b, last, c);
      assert c in ReleaseCodes(b.own, r, keys) <==> c in ReleaseCodes(b.own, r, before) || c in more;
    }
  }

  lemma EffectsHave(b: Book, r: Row, c: Code)
    ensures c in EffectCodes(b, r) <==>
            || (c == E_PROTO_003 && Moving(r) && !SourcesThere(b, r, Pairs(r)))
            || (r.op == EPR_RELEASE && exists k :: RefersTo(r.a, k) && ReleaseFault(b, k, c))
  {
    MovingIs(r);
    if Moving(r) {
      MovesAre(r);
      TeleportsAreClean(b, r, Pairs(r));
      assert Moves(r)[..Pairs(r)] == Moves(r);
      OnlyUnprepared(b, r, Moves(r), c);
    } else if r.op == EPR_RELEASE {
      OperandKeysDistinct(r.a);
      ReleasesHave(b, r, Keys(r.a), c);
      forall k
        ensures k in Keys(r.a) <==> RefersTo(r.a, k)
      {
        KeysAreReferredTo(r.a, k);
      }
    }
  }

  lemma ColocatedHave(b: Book, r: Row, c: Code)
    ensures c in ColocatedCodes(b.own, r) <==>
              c == W_PROTO_005 && r.op in {REMOTE_CNOT, REMOTE_CONTROL} && SameNode(b, r)
  {
  }

  // ----- One row -----

  /** Everything a row can be reported for, in the order of how far it is looked at. */
  ghost predicate Fault(rows: seq<Row>, i: nat, c: Code)
    requires i < |rows|
  {
    var r := rows[i];
    || WordFault(r, c)
    || (!Unreadable(r) && !Declares(r.op) && (PlaceFault(rows, i, c) || GateFault(r, c)))
    || (Works(r) && (ProtocolFault(rows, i, c) || OwnershipFault(BookAfter(rows[..i]), r, c)))
  }

  lemma InSum(u: seq<Code>, v: seq<Code>, w: seq<Code>, x: seq<Code>, y: seq<Code>, z: seq<Code>, t: seq<Code>, c: Code)
    ensures c in u + v + w + x + y + z + t <==> c in u || c in v || c in w || c in x || c in y || c in z || c in t
  {
  }

  lemma OperationSum(n: Names, b: Book, r: Row, c: Code)
    ensures c in OperationCodes(n, b, r) <==>
            || c in AllUseCodes(b.own, r, Uses(r)) || c in CloneCodes(r) || c in ProtocolCodes(r)
            || c in EffectCodes(b, r) || c in ColocatedCodes(b.own, r) || c in ControlCodes(n, r)
              || c in HonestyCodes(r)
  {
    InSum(AllUseCodes(b.own, r, Uses(r)), CloneCodes(r), ProtocolCodes(r), EffectCodes(b, r),
          ColocatedCodes(b.own, r), ControlCodes(n, r), HonestyCodes(r), c);
  }

  lemma OperationHas(n: Names, b: Book, rows: seq<Row>, i: nat, c: Code)
    requires i < |rows| && NamesAre(n, rows, i)
    ensures c in OperationCodes(n, b, rows[i]) <==> ProtocolFault(rows, i, c) || OwnershipFault(b, rows[i], c)
  {
    OperationSum(n, b, rows[i], c);
    ObjectsHave(b, rows[i], c);
    ClonesHave(rows[i], c);
    ProtocolsHave(rows, i, c);
    EffectsHave(b, rows[i], c);
    ColocatedHave(b, rows[i], c);
    ConditionsHave(n, rows, i, c);
    HonestyHas(rows, i, c);
  }

  lemma RowHas(rows: seq<Row>, i: nat, c: Code)
    requires i < |rows|
    ensures c in RowCodes(NamesAfter(rows[..i]), BookAfter(rows[..i]), rows[i]) <==> Fault(rows, i, c)
  {
    var r := rows[i];
    NamesAfterAre(rows, i);
    WordsHave(r, c);
    PlacesHave(NamesAfter(rows[..i]), rows, i, c);
    GatesHave(r, c);
    PreparesIs(r.op);
    DeclaresIs(r.op);
    OperationHas(NamesAfter(rows[..i]), BookAfter(rows[..i]), rows, i, c);
  }

  ghost function ReportedUpTo(rows: seq<Row>, c: Code): nat -> bool {
    (i: nat) => i <= |rows| && c in CodesAfter(rows[..i])
  }

  ghost function FaultAt(rows: seq<Row>, c: Code): nat -> bool {
    (i: nat) => i < |rows| && Fault(rows, i, c)
  }

  lemma ReportsCollect(rows: seq<Row>, c: Code, i: nat)
    requires i < |rows|
    ensures Collects(ReportedUpTo(rows, c), FaultAt(rows, c), i, i + 1)
  {
    assert rows[..i + 1][..i] == rows[..i];
    RowHas(rows, i, c);
  }

  /** The verifier reports a code exactly when some row gives cause for it, or the policy does. */
  lemma CodesAreFaults(p: Program, c: Code)
    ensures c in PolicyCodes(p) + CodesAfter(p.rows) <==>
            || (c == E_POL_001 && p.network != "deny")
            || (c == E_POL_002 && p.backend != "none")
            || exists i: nat :: i < |p.rows| && FaultAt(p.rows, c)(i)
  {
    var rows := p.rows;
    forall i: nat, m: nat | i < |rows| && m == i + 1
      ensures Collects(ReportedUpTo(rows, c), FaultAt(rows, c), i, m)
    {
      ReportsCollect(rows, c, i);
    }
    AnyOf(ReportedUpTo(rows, c), FaultAt(rows, c), |rows|);
    assert rows[..|rows|] == rows;
  }
}
