/** The MSSL to LCTLC/1.1 translator: label pass, row pass, capability derivation and reachability check,
    with the proof that an accepted program and its translation run alike. */
module Translate {
  import opened Common
  import opened Arith64
  import opened Machine
  import opened Mssl
  import opened Lctlc
  import opened Reachability

  datatype Source = Source(line: nat, toks: seq<Token>)

  datatype Refusal = Refusal(line: nat, why: Complaint)

  datatype DroppedMode = DroppedMode(row: RowId, op: Op, mode: Mode, line: nat)

  datatype Translation = Translation(unit: Unit, labels: map<string, nat>, dropped: seq<DroppedMode>, capsDiffer: bool)

  // ----- What the source says -----

  /** The instruction lines in order, each with its line number. */
  function Code(lines: seq<Line>): (code: seq<Source>)
    ensures |code| <= |lines|
  {
    if lines == [] then [] else
    var last := lines[|lines| - 1];
    Code(lines[..|lines| - 1]) + if last.Instruction? then [Source(|lines|, last.toks)] else []
  }

  /** A label names the instruction that follows it. */
  function Labels(lines: seq<Line>): map<string, nat> {
    if lines == [] then map[] else
    var last, before := lines[|lines| - 1], lines[..|lines| - 1];
    if last.Label? then Labels(before)[last.name := |Code(before)|] else Labels(before)
  }

  /** The last capability line, if there is one. */
  function DeclaredCaps(lines: seq<Line>): Option<seq<Option<Cap>>> {
    if lines == [] then None else
    var last := lines[|lines| - 1];
    if last.RequestCaps? then Some(last.caps) else DeclaredCaps(lines[..|lines| - 1])
  }

  /** What is wrong with line j, given the lines before it. */
  function LineFault(lines: seq<Line>, j: nat): Option<Complaint>
    requires j < |lines|
  {
    match lines[j]
    case ImageVersion(t) => (match LiteralOf(t) case Ok(_) => None case Refused(c) => Some(c))
    case RequestCaps(caps) => if None in caps then Some(UnknownCap) else None
    case Data => Some(DataSection)
    case UnknownDirective => Some(BadDirective)
    case Label(name) =>
      if name == "" then Some(BadLabel) else if name in Labels(lines[..j]) then Some(DuplicateLabel) else None
    case _ => None
  }

  // ----- Rows -----

  function RowName(k: nat): RowId {
    RowId('T', k + 1)
  }

  function MetaFor(i: Insn): Result<Meta, Complaint> {
    if IsControl(i.op) then (if i.mode == WRAP then Ok(NoMeta) else Refused(ModeOnControl))
    else if IsMemory(i.op) then (if i.mode == WRAP then Ok(Scalar64) else Refused(ModeOnMemory))
    else if i.mode != WRAP && ModeMatters(i.op) then Ok(WideMode(i.mode))
    else Ok(Wide)
  }

  function ArgFor(i: Insn): Arg {
    match i.op
    case MOVI => U64(i.imm)
    case SHL => U32(i.imm)
    case SHR => U32(i.imm)
    case LOAD => Mem(i.imm)
    case STORE => Mem(i.imm)
    case JMP => ToRow(RowName(i.imm))
    case JZ => ToRow(RowName(i.imm))
    case JNZ => ToRow(RowName(i.imm))
    case SVC => ServiceArg(i.imm)
    case _ => NoArg
  }

  function RowOf(k: nat, i: Insn, meta: Meta): Row {
    var format := Format(i.op);
    Row(RowName(k), "t", i.op, if Rd in format then Some(i.rd) else None, i.cap,
        (if Ra in format then [i.ra] else []) + (if Rb in format then [i.rb] else []),
        ArgFor(i), meta)
  }

  /** The row for one instruction, with the instruction it came from. */
  function Lower(k: nat, toks: seq<Token>, labels: map<string, nat>, count: nat): Result<(Row, Insn), Complaint> {
    match Assemble(toks, labels, count)
    case Refused(c) => Refused(c)
    case Ok(i) =>
      match MetaFor(i)
      case Refused(c) => Refused(c)
      case Ok(meta) => Ok((RowOf(k, i, meta), i))
  }

  function LoweredAt(lines: seq<Line>, k: nat): Result<(Row, Insn), Complaint>
    requires k < |Code(lines)|
  {
    Lower(k, Code(lines)[k].toks, Labels(lines), |Code(lines)|)
  }

  predicate DropsMode(i: Insn) {
    !IsControl(i.op) && !IsMemory(i.op) && i.mode != WRAP && !ModeMatters(i.op)
  }

  // ----- The accepted programs and their translation -----

  ghost predicate RowsTranslate(lines: seq<Line>) {
    forall k :: 0 <= k < |Code(lines)| ==> LoweredAt(lines, k).Ok?
  }

  function Insns(lines: seq<Line>): (s: seq<Insn>)
    requires forall k :: 0 <= k < |Code(lines)| ==> LoweredAt(lines, k).Ok?
    ensures |s| == |Code(lines)|
  {
    seq(|Code(lines)|, k requires 0 <= k < |Code(lines)| => LoweredAt(lines, k).value.1)
  }

  function Rows(lines: seq<Line>): (s: seq<Row>)
    requires forall k :: 0 <= k < |Code(lines)| ==> LoweredAt(lines, k).Ok?
    ensures |s| == |Code(lines)|
  {
    seq(|Code(lines)|, k requires 0 <= k < |Code(lines)| => LoweredAt(lines, k).value.0)
  }

  function Needed(insns: seq<Insn>): set<Cap> {
    if insns == [] then {} else
    var last := insns[|insns| - 1];
    Needed(insns[..|insns| - 1]) + Needs(last.op, last.imm)
  }

  function Dropped(code: seq<Source>, insns: seq<Insn>): seq<DroppedMode>
    requires |code| == |insns|
  {
    if insns == [] then [] else
    var k := |insns| - 1;
    Dropped(code[..k], insns[..k])
    + if DropsMode(insns[k]) then [DroppedMode(RowName(k), insns[k].op, insns[k].mode, code[k].line)] else []
  }

  function Flow(insns: seq<Insn>): Graph {
    seq(|insns|, k requires 0 <= k < |insns| => Successors(insns[k], k))
  }

  ghost predicate NoLineFault(lines: seq<Line>) {
    forall j :: 0 <= j < |lines| ==> LineFault(lines, j) == None
  }

  /** Exactly the programs the translator accepts. */
  ghost predicate Acceptable(lines: seq<Line>) {
    && NoLineFault(lines)
    && Code(lines) != []
    && DeclaredCaps(lines).Some?
    && RowsTranslate(lines)
    && forall k :: 0 <= k < |Code(lines)| ==> Reachable(Flow(Insns(lines)), k)
  }

  function UnitOf(lines: seq<Line>): Unit
    requires forall k :: 0 <= k < |Code(lines)| ==> LoweredAt(lines, k).Ok?
  {
    Unit(Rows(lines), RowName(0), InOrder(CAP_ORDER, Needed(Insns(lines))), |Code(lines)| + 1)
  }

  /** The refusal names the first fault in the order the passes run. */
  ghost predicate FirstFault(lines: seq<Line>, r: Refusal) {
    var code := Code(lines);
    || (exists j :: 0 <= j < |lines| && LineFault(lines, j) == Some(r.why) && r.line == j + 1
          && forall i :: 0 <= i < j ==> LineFault(lines, i) == None)
    || (NoLineFault(lines) && code == [] && r == Refusal(0, NoInstructions))
    || (NoLineFault(lines) && code != [] && DeclaredCaps(lines) == None && r == Refusal(0, NoCaps))
    || (NoLineFault(lines) && DeclaredCaps(lines).Some?
        && exists k :: 0 <= k < |code| && LoweredAt(lines, k) == Refused(r.why) && r.line == code[k].line
             && forall i :: 0 <= i < k ==> LoweredAt(lines, i).Ok?)
    || (NoLineFault(lines) && DeclaredCaps(lines).Some? && RowsTranslate(lines) && r.why == Unreachable
        && exists k :: 0 <= k < |code| && !Reachable(Flow(Insns(lines)), k) && r.line == code[k].line
             && forall i :: 0 <= i < k ==> Reachable(Flow(Insns(lines)), i))
  }

  // ----- The translator -----

  datatype Scanned = Scanned(labels: map<string, nat>, code: seq<Source>, caps: Option<seq<Option<Cap>>>)

  /** Pass 1: directives, labels and the instruction stream. */
  method Scan(lines: seq<Line>) returns (r: Result<Scanned, Refusal>)
    ensures r.Ok? <==> NoLineFault(lines)
    ensures r.Ok? ==> r.value == Scanned(Labels(lines), Code(lines), DeclaredCaps(lines))
    ensures r.Refused? ==> FirstFault(lines, r.reason)
  {
    var labels: map<string, nat> := map[];
    var code: seq<Source> := [];
    var caps := None;
    for n := 0 to |lines|
      invariant labels == Labels(lines[..n]) && code == Code(lines[..n]) && caps == DeclaredCaps(lines[..n])
      invariant forall j :: 0 <= j < n ==> LineFault(lines, j) == None
    {
      assert lines[..n + 1][..n] == lines[..n];
      var fault := None;
      match lines[n] {
        case ImageVersion(t) =>
          var v := LiteralOf(t);
          if v.Refused? { fault := Some(v.reason); }
        case RequestCaps(cs) =>
          if None in cs { fault := Some(UnknownCap); }
          caps := Some(cs);
        case Data => fault := Some(DataSection);
        case UnknownDirective => fault := Some(BadDirective);
        case Label(name) =>
          if name == "" {
            fault := Some(BadLabel);
          } else if name in labels {
            fault := Some(DuplicateLabel);
          }
          labels := labels[name := |code|];
        case Instruction(toks) => code := code + [Source(n + 1, toks)];
        case _ =>
      }
      assert fault == LineFault(lines, n);
      if fault.Some? {
        return Refused(Refusal(n + 1, fault.value));
      }
    }
    assert lines[..|lines|] == lines;
    return Ok(Scanned(labels, code, caps));
  }

  /** Pass 2: one row per instruction, in order. */
  method RowPass(lines: seq<Line>, labels: map<string, nat>, code: seq<Source>)
    returns (r: Result<(seq<Row>, seq<Insn>, seq<DroppedMode>), Refusal>)
    requires labels == Labels(lines) && code == Code(lines)
    ensures r.Ok? <==> RowsTranslate(lines)
    ensures r.Ok? ==> r.value == (Rows(lines), Insns(lines), Dropped(code, Insns(lines)))
    ensures r.Refused? ==> exists k :: 0 <= k < |code| && LoweredAt(lines, k) == Refused(r.reason.why)
                             && r.reason.line == code[k].line && forall i :: 0 <= i < k ==> LoweredAt(lines, i).Ok?
  {
    var rows: seq<Row> := [];
    var insns: seq<Insn> := [];
    var dropped: seq<DroppedMode> := [];
    for k := 0 to |code|
      invariant |rows| == |insns| == k
      invariant forall i :: 0 <= i < k ==> LoweredAt(lines, i) == Ok((rows[i], insns[i]))
      invariant dropped == Dropped(code[..k], insns)
    {
      var lowered := Lower(k, code[k].toks, labels, |code|);
      assert lowered == LoweredAt(lines, k);
      if lowered.Refused? {
        return Refused(Refusal(code[k].line, lowered.reason));
      }
      var (row, insn) := lowered.value;
      assert code[..k + 1][..k] == code[..k] && (insns + [insn])[..k] == insns;
      if DropsMode(insn) {
        dropped := dropped + [DroppedMode(RowName(k), insn.op, insn.mode, code[k].line)];
      }
      rows := rows + [row];
      insns := insns + [insn];
    }
    assert code[..|code|] == code;
    assert rows == Rows(lines) && insns == Insns(lines);
    return Ok((rows, insns, dropped));
  }

  method DeriveCaps(insns: seq<Insn>) returns (derived: seq<Cap>)
    ensures derived == InOrder(CAP_ORDER, Needed(insns))
  {
    var need: set<Cap> := {};
    for k := 0 to |insns|
      invariant need == Needed(insns[..k])
    {
      assert insns[..k + 1][..k] == insns[..k];
      need := need + Needs(insns[k].op, insns[k].imm);
    }
    assert insns[..|insns|] == insns;
    derived := InOrder(CAP_ORDER, need);
  }

  /** The first row control cannot reach, if there is one. */
  method FirstDeadRow(insns: seq<Insn>) returns (dead: Option<nat>)
    requires insns != []
    ensures dead == None <==> forall k :: 0 <= k < |insns| ==> Reachable(Flow(insns), k)
    ensures dead.Some? ==> && dead.value < |insns| && !Reachable(Flow(insns), dead.value)
                           && forall i :: 0 <= i < dead.value ==> Reachable(Flow(insns), i)
  {
    var succ: Graph := [];
    for k := 0 to |insns|
      invariant |succ| == k
      invariant forall i :: 0 <= i < k ==> succ[i] == Successors(insns[i], i)
    {
      succ := succ + [Successors(insns[k], k)];
    }
    assert succ == Flow(insns);
    var seen := Worklist(succ);
    for k := 0 to |insns|
      invariant forall i :: 0 <= i < k ==> Reachable(succ, i)
    {
      if k !in seen {
        return Some(k);
      }
    }
    return None;
  }

  function Quoted(caps: seq<Cap>): seq<Option<Cap>> {
    seq(|caps|, i requires 0 <= i < |caps| => Some(caps[i]))
  }

  method Translate(lines: seq<Line>) returns (r: Result<Translation, Refusal>)
    ensures r.Ok? <==> Acceptable(lines)
    ensures r.Ok? ==> r.value == Translation(
      UnitOf(lines), Labels(lines), Dropped(Code(lines), Insns(lines)),
      DeclaredCaps(lines).value != Quoted(UnitOf(lines).caps))
    ensures r.Refused? ==> FirstFault(lines, r.reason)
  {
    var scan := Scan(lines);
    if scan.Refused? {
      return Refused(scan.reason);
    }
    var Scanned(labels, code, caps) := scan.value;
    if code == [] {
      return Refused(Refusal(0, NoInstructions));
    }
    if caps == None {
      return Refused(Refusal(0, NoCaps));
    }
    var pass := RowPass(lines, labels, code);
    if pass.Refused? {
      return Refused(pass.reason);
    }
    var (rows, insns, dropped) := pass.value;
    var derived := DeriveCaps(insns);
    var dead := FirstDeadRow(insns);
    if dead.Some? {
      return Refused(Refusal(code[dead.value].line, Unreachable));
    }
    return Ok(Translation(Unit(rows, RowName(0), derived, |rows| + 1), labels, dropped, caps.value != Quoted(derived)));
  }

  // ----- Meaning is preserved -----

  /** Literals the row format has room for. */
  predicate LiteralFits(i: Insn) {
    (i.op == MOVI ==> i.imm < WORD) && (i.op in {SHL, SHR} ==> i.imm < 0x1_0000_0000)
  }

  ghost predicate LiteralsFit(lines: seq<Line>)
    requires RowsTranslate(lines)
  {
    forall k :: 0 <= k < |Code(lines)| ==> LiteralFits(Insns(lines)[k])
  }

  /** Assembled instructions leave unused positions zero and point branches into the program. */
  lemma {:induction false} OperandsAreCanonical(i: Insn, fields: seq<Field>, toks: seq<Token>,
      labels: map<string, nat>, count: nat)
    requires |fields| == |toks|
    ensures var r := Operands(i, fields, toks, labels, count);
            r.Ok? ==> && r.value.op == i.op && r.value.mode == i.mode
                      && (Rd in fields || r.value.rd == i.rd) && (Ra in fields || r.value.ra == i.ra)
                      && (Rb in fields || r.value.rb == i.rb)
                      && (Imm in fields || Target in fields || Svc in fields || r.value.imm == i.imm)
                      && (Target in fields && Imm !in fields && Svc !in fields ==> r.value.imm < count)
                      && (Svc in fields && Imm !in fields && Target !in fields ==> r.value.imm < SERVICE_COUNT)
    decreases |fields|
  {
    if fields != [] {
      var next := WithField(i, fields[0], toks[0], labels, count);
      if next.Ok? {
        assert fields == [fields[0]] + fields[1..];
        OperandsAreCanonical(next.value, fields[1..], toks[1..], labels, count);
      }
    }
  }

  lemma FormatOf(op: Op)
    ensures Target in Format(op) <==> IsBranch(op)
    ensures Svc in Format(op) <==> op == Op.SVC
    ensures Imm in Format(op) <==> op in {MOVI, SHL, SHR} || IsMemory(op)
    ensures Rb in Format(op) ==> Ra in Format(op)
    ensures Cc in Format(op)
  {
    assert Format(op)[|Format(op)| - 1] == Cc;
  }

  /** Assembled instructions leave unused positions zero and point branches into the program. */
  lemma AssembledShape(toks: seq<Token>, labels: map<string, nat>, count: nat)
    ensures var r := Assemble(toks, labels, count);
            r.Ok? ==> && Canonical(r.value)
                      && (IsBranch(r.value.op) ==> r.value.imm < count)
                      && (r.value.op == Op.SVC ==> r.value.imm < SERVICE_COUNT)
  {
    var r := Assemble(toks, labels, count);
    if r.Ok? {
      var Head(op, mode) := toks[0].cls;
      OperandsAreCanonical(Insn(op.value, mode.value, 0, 0, 0, 0, 0), Format(op.value), toks[1..], labels, count);
      FormatOf(op.value);
    }
  }

  ghost predicate Numbered(rows: seq<Row>) {
    forall k :: 0 <= k < |rows| ==> rows[k].id == RowName(k)
  }

  lemma {:induction false} BranchFindsItsRow(rows: seq<Row>, from: nat, k: nat)
    requires Numbered(rows) && from <= k < |rows|
    ensures FindRow(rows[from..], RowName(k)) == Some(k - from)
    decreases k - from
  {
    if from < k {
      BranchFindsItsRow(rows, from + 1, k);
      assert rows[from..][1..] == rows[from + 1..];
    }
  }

  function Normalized(i: Insn): Insn {
    if ModeMatters(i.op) then i else i.(mode := WRAP)
  }

  /** Reading a row back gives the instruction it was made from, less an inert mode; a literal too wide for its
      cell is the only thing that makes a row unreadable. */
  lemma RowMeansItsSource(rows: seq<Row>, k: nat, i: Insn, meta: Meta)
    requires Numbered(rows) && Canonical(i) && MetaFor(i) == Ok(meta)
    requires IsBranch(i.op) ==> i.imm < |rows|
    requires i.op == Op.SVC ==> i.imm < SERVICE_COUNT
    ensures Meaning(rows, RowOf(k, i, meta)) == if LiteralFits(i) then Some(Normalized(i)) else None
  {
    FormatOf(i.op);
    var r := RowOf(k, i, meta);
    assert MetaAllowed(i.op, meta) && ColumnsFit(r);
    if IsBranch(i.op) {
      BranchFindsItsRow(rows, 0, i.imm);
      assert rows[0..] == rows;
    }
    assert ArgValue(rows, i.op, r.arg) == if LiteralFits(i) then Some(i.imm) else None;
  }

  function SourceFetch(lines: seq<Line>): nat -> Option<Insn> {
    (ip: nat) =>
      if ip < |Code(lines)| then
        match Assemble(Code(lines)[ip].toks, Labels(lines), |Code(lines)|)
        case Ok(i) => Some(i)
        case Refused(_) => None
      else None
  }

  lemma RowsAreNumbered(lines: seq<Line>)
    requires RowsTranslate(lines)
    ensures Numbered(Rows(lines))
  {
  }

  lemma TranslatedRow(lines: seq<Line>, k: nat)
    requires RowsTranslate(lines) && k < |Code(lines)|
    ensures SourceFetch(lines)(k) == Some(Insns(lines)[k])
    ensures IsBranch(Insns(lines)[k].op) ==> Insns(lines)[k].imm < |Code(lines)|
    ensures Fetch(Rows(lines))(k) == if LiteralFits(Insns(lines)[k]) then Some(Normalized(Insns(lines)[k])) else None
  {
    var i := Insns(lines)[k];
    assert LoweredAt(lines, k).Ok?;
    AssembledShape(Code(lines)[k].toks, Labels(lines), |Code(lines)|);
    RowsAreNumbered(lines);
    RowMeansItsSource(Rows(lines), k, i, MetaFor(i).value);
  }

  /** Source and translation run in lock step from every state: same ip, registers, flag, memory, stack, world
      and halt or trap after every number of steps, on every machine whose modes are inert where dropped. */
  lemma TranslationPreservesMeaning(m: Machine, lines: seq<Line>, s: State, steps: nat)
    requires RowsTranslate(lines) && LiteralsFit(lines) && ModesAreInert(m)
    ensures Run(m, SourceFetch(lines), s, steps) == Run(m, Fetch(UnitOf(lines).rows), s, steps)
  {
    forall ip: nat
      ensures SameFetch(SourceFetch(lines)(ip), Fetch(Rows(lines))(ip))
    {
      if ip < |Code(lines)| {
        TranslatedRow(lines, ip);
        assert LiteralFits(Insns(lines)[ip]);
      }
    }
    SameCodeSameRun(m, SourceFetch(lines), Fetch(Rows(lines)), s, steps);
  }

  /** Every emitted row can be read exactly when every literal fits its cell. */
  lemma UnitReadableIffLiteralsFit(lines: seq<Line>)
    requires RowsTranslate(lines)
    ensures LiteralsFit(lines) <==> Readable(UnitOf(lines).rows)
  {
    forall k | 0 <= k < |Code(lines)|
      ensures LiteralFits(Insns(lines)[k]) <==> Meaning(Rows(lines), Rows(lines)[k]).Some?
    {
      TranslatedRow(lines, k);
    }
  }

  ghost predicate Readable(rows: seq<Row>) {
    forall k :: 0 <= k < |rows| ==> Meaning(rows, rows[k]).Some?
  }

  // ----- Control flow of the emitted rows -----

  function RowSuccessors(rows: seq<Row>, k: nat): seq<nat>
    requires k < |rows|
  {
    var r := rows[k];
    var target := if r.arg.ToRow? then (match FindRow(rows, r.arg.id) case Some(t) => [t] case None => []) else [];
    if r.op == HALT then [] else if r.op == JMP then target else if IsBranch(r.op) then target + [k + 1] else [k + 1]
  }

  function RowFlow(rows: seq<Row>): Graph {
    seq(|rows|, k requires 0 <= k < |rows| => RowSuccessors(rows, k))
  }

  lemma RowFlowsLikeItsSource(lines: seq<Line>, k: nat)
    requires RowsTranslate(lines) && k < |Code(lines)|
    ensures RowSuccessors(Rows(lines), k) == Successors(Insns(lines)[k], k)
  {
    var rows, i := Rows(lines), Insns(lines)[k];
    RowsAreNumbered(lines);
    TranslatedRow(lines, k);
    assert LoweredAt(lines, k).Ok?;
    assert rows[k].op == i.op && rows[k].arg == ArgFor(i);
    if IsBranch(i.op) {
      BranchFindsItsRow(rows, 0, i.imm);
      assert rows[0..] == rows;
    }
  }

  /** The graph searched is the graph of the rows emitted, so an accepted unit has no unreachable row. */
  lemma EmittedRowsAreReachable(lines: seq<Line>)
    requires RowsTranslate(lines)
    ensures RowFlow(UnitOf(lines).rows) == Flow(Insns(lines))
    ensures Acceptable(lines) ==> forall k :: 0 <= k < |UnitOf(lines).rows| ==>
              Reachable(RowFlow(UnitOf(lines).rows), k)
  {
    forall k | 0 <= k < |Rows(lines)|
      ensures RowSuccessors(Rows(lines), k) == Successors(Insns(lines)[k], k)
    {
      RowFlowsLikeItsSource(lines, k);
    }
    assert RowFlow(Rows(lines)) == Flow(Insns(lines));
  }

  /** The declared capabilities are exactly those some row needs, each once and in table order. */
  lemma CapsAreExact(lines: seq<Line>, c: Cap)
    requires RowsTranslate(lines)
    ensures c in UnitOf(lines).caps <==>
              exists k :: 0 <= k < |Code(lines)| && c in Needs(Insns(lines)[k].op, Insns(lines)[k].imm)
    ensures multiset(UnitOf(lines).caps)[c] <= 1
  {
    NeededIsUnion(Insns(lines), c);
    OrderedExactly(Needed(Insns(lines)), c);
  }

  lemma OrderedExactly(need: set<Cap>, c: Cap)
    ensures c in InOrder(CAP_ORDER, need) <==> c in need
    ensures multiset(InOrder(CAP_ORDER, need))[c] <= 1
  {
    var place := match c case CONTROL => 0 case ARITH => 1 case MEMORY => 2 case STACK => 3
                         case SERVICE => 4 case STATE => 5 case UPDATE => 6 case DIAG => 7;
    assert CAP_ORDER[place] == c;
    FilterKeeps(CAP_ORDER, need, c);
    assert c in InOrder(CAP_ORDER, need) <==> multiset(InOrder(CAP_ORDER, need))[c] > 0;
  }

  lemma {:induction false} NeededIsUnion(insns: seq<Insn>, c: Cap)
    ensures c in Needed(insns) <==> exists k :: 0 <= k < |insns| && c in Needs(insns[k].op, insns[k].imm)
    decreases |insns|
  {
    if insns != [] {
      var before := insns[..|insns| - 1];
      NeededIsUnion(before, c);
      assert forall k :: 0 <= k < |before| ==> insns[k] == before[k];
    }
  }

  lemma {:induction false} FilterKeeps(order: seq<Cap>, need: set<Cap>, c: Cap)
    requires forall i, j :: 0 <= i < j < |order| ==> order[i] != order[j]
    ensures multiset(InOrder(order, need))[c] == if c in order && c in need then 1 else 0
    decreases |order|
  {
    if order != [] {
      FilterKeeps(order[1..], need, c);
      assert order == [order[0]] + order[1..];
    }
  }
}
