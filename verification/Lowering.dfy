/** The witness lowered to the dialect of each fabric node, and the proof that on registers of any width from
    64 bits up every lowering halts after exactly 3n + 4 steps with the 64-bit witness in R0 and R2. */
module Lowering {
  import opened Common
  import opened Arith64
  import opened RowWitness
  import opened Machine
  import opened Mssl
  import opened Lctlc
  import opened Text
  import Translate

  datatype NodeId = Small | Medium | Large | XLarge

  const INSTRUCTIONS_PER_ROW: nat := 3
  const PROLOGUE_EPILOGUE: nat := 4
  const BR_MAX_INSTRUCTIONS: nat := 256
  const BR_MAX_SOURCE_LINES: nat := 512
  const QVM_MAX_INSTRUCTIONS: nat := 65535
  const BR_MAX_ROWS: nat := (BR_MAX_INSTRUCTIONS - PROLOGUE_EPILOGUE) / INSTRUCTIONS_PER_ROW
  const QVM_MAX_ROWS: nat := (QVM_MAX_INSTRUCTIONS - PROLOGUE_EPILOGUE) / INSTRUCTIONS_PER_ROW

  function Ceiling(node: NodeId): nat {
    if node == XLarge then QVM_MAX_INSTRUCTIONS else BR_MAX_INSTRUCTIONS
  }

  function MaxRows(node: NodeId): nat {
    if node == XLarge then QVM_MAX_ROWS else BR_MAX_ROWS
  }

  function InstructionCount(rows: nat): nat {
    rows * INSTRUCTIONS_PER_ROW + PROLOGUE_EPILOGUE
  }

  datatype LoweringRefused = NoRows | TooManyRows | TooManyLines

  function CheckBound(words: seq<int>, maxRows: nat): Option<LoweringRefused> {
    if words == [] then Some(NoRows) else if |words| > maxRows then Some(TooManyRows) else None
  }

  // ----- The program every dialect spells -----

  function Movi(rd: Register, v: int): Insn { Insn(MOVI, WRAP, rd, 0, 0, 0, Low64(v)) }

  const MUL_STEP: Insn := Insn(MUL, WRAP, 0, 0, 1, 0, 0)
  const XOR_STEP: Insn := Insn(XOR, WRAP, 0, 0, 3, 0, 0)
  const RESULT: Insn := Insn(MOV, WRAP, 2, 0, 0, 0, 0)
  const STOP: Insn := Insn(HALT, WRAP, 0, 0, 0, 0, 0)

  function Body(words: seq<int>): (body: seq<Insn>)
    ensures |body| == 3 * |words|
  {
    if words == [] then [] else
    Body(words[..|words| - 1]) + [MUL_STEP, Movi(3, words[|words| - 1]), XOR_STEP]
  }

  function Core(words: seq<int>, accIn: int): (core: seq<Insn>)
    ensures |core| == InstructionCount(|words|)
  {
    [Movi(0, accIn), Movi(1, FNV_PRIME)] + Body(words) + [RESULT, STOP]
  }

  lemma {:induction false} BodyAt(words: seq<int>, i: nat)
    requires i < |words|
    ensures Body(words)[3 * i..3 * i + 3] == [MUL_STEP, Movi(3, words[i]), XOR_STEP]
    decreases |words|
  {
    var before := words[..|words| - 1];
    if i < |before| {
      BodyAt(before, i);
      assert Body(words)[3 * i..3 * i + 3] == Body(before)[3 * i..3 * i + 3];
    }
  }

  // ----- What the machine does with it -----

  /** Registers at least 64 bits wide, MUL and XOR as documented, and the capability in slot 0 granted. */
  ghost predicate WrapsWide(m: Machine) {
    && m.width >= 64
    && (forall x: nat, y: nat :: m.alu(MUL, WRAP, x, y).Value? && m.alu(MUL, WRAP, x, y).v == (x * y) % Pow2(m.width))
    && (forall x: nat, y: nat :: m.alu(XOR, WRAP, x, y).Value? && m.alu(XOR, WRAP, x, y).v == Xor(x, y))
    && (forall op, s :: op in {MOVI, MUL, XOR, MOV, HALT} ==> m.mayUse(0, op, s))
  }

  ghost predicate Holds(fetch: nat -> Option<Insn>, code: seq<Insn>) {
    forall ip: nat :: fetch(ip) == if ip < |code| then Some(code[ip]) else None
  }

  /** After the prologue and i rows: i words folded into the low half of R0. */
  ghost predicate Folded(s: State, words: seq<int>, accIn: int, i: nat)
    requires i <= |words|
  {
    && s.status == Running && s.ip == 2 + 3 * i
    && Low64(s.regs[0]) == Fold(Low64(accIn), words[..i])
    && Low64(s.regs[1]) == FNV_PRIME
  }

  lemma CoreRow(words: seq<int>, accIn: int, i: nat)
    requires i < |words|
    ensures var core := Core(words, accIn);
            core[2 + 3 * i] == MUL_STEP && core[3 + 3 * i] == Movi(3, words[i]) && core[4 + 3 * i] == XOR_STEP
  {
    BodyAt(words, i);
    var row := Body(words)[3 * i..3 * i + 3];
    assert row[0] == Body(words)[3 * i] && row[1] == Body(words)[3 * i + 1] && row[2] == Body(words)[3 * i + 2];
  }

  /** Executing the three instructions of a row, one after the other. */
  lemma RowEffect(m: Machine, s: State, w: int)
    requires WrapsWide(m)
    ensures var t := Exec(m, XOR_STEP, Exec(m, Movi(3, w), Exec(m, MUL_STEP, s)));
            && t.status == s.status && t.ip == s.ip + 3 && t.regs[1] == s.regs[1]
            && t.regs[0] == Xor((s.regs[0] * s.regs[1]) % Pow2(m.width), Low64(w) % Pow2(m.width))
  {
    var s1 := Exec(m, MUL_STEP, s);
    assert s1.regs[0] == (s.regs[0] * s.regs[1]) % Pow2(m.width);
    var s2 := Exec(m, Movi(3, w), s1);
    assert s2.regs[3] == Low64(w) % Pow2(m.width);
  }

  lemma WideProduct(width: nat, r0: nat, r1: nat)
    requires width >= 64
    ensures Low64((r0 * r1) % Pow2(width)) == Low64(Low64(r0) * Low64(r1))
  {
    LowBitsOfWide(r0 * r1, width);
    MulMod(r0, r1, WORD);
  }

  lemma MixFromLowHalves(x: nat, y: nat, acc: nat, prime: nat, w: int)
    requires prime == FNV_PRIME && Low64(x) == Low64(acc * prime) && Low64(y) == Low64(w)
    ensures Low64(Xor(x, y)) == Mix(acc, w)
  {
    Xor64(x, y);
  }

  /** Wide multiply and wide xor agree with the 64-bit mix in the low half. */
  lemma MixOnWideRegisters(width: nat, r0: nat, r1: nat, w: int, x: nat, y: nat)
    requires width >= 64 && Low64(r1) == FNV_PRIME
    requires x == (r0 * r1) % Pow2(width) && y == Low64(w) % Pow2(width)
    ensures Low64(Xor(x, y)) == Mix(Low64(r0), w)
  {
    WideProduct(width, r0, r1);
    LowBitsOfWide(Low64(w), width);
    MixFromLowHalves(x, y, Low64(r0), Low64(r1), w);
  }

  lemma FoldSnoc(acc: nat, words: seq<int>, i: nat)
    requires i < |words|
    ensures Fold(acc, words[..i + 1]) == Mix(Fold(acc, words[..i]), words[i])
  {
    assert words[..i + 1] == words[..i] + [words[i]];
    FoldAppend(acc, words[..i], [words[i]]);
    var mid := Fold(acc, words[..i]);
    assert Fold(mid, [words[i]]) == Fold(Mix(mid, words[i]), [words[i]][1..]);
  }

  lemma FoldOneRow(m: Machine, fetch: nat -> Option<Insn>, words: seq<int>, accIn: int, i: nat, s: State)
    requires WrapsWide(m) && Holds(fetch, Core(words, accIn))
    requires i < |words| && Folded(s, words, accIn, i)
    ensures Folded(Run(m, fetch, s, 3), words, accIn, i + 1)
  {
    CoreRow(words, accIn, i);
    RunThree(m, fetch, s, MUL_STEP, Movi(3, words[i]), XOR_STEP);
    RowEffect(m, s, words[i]);
    MixOnWideRegisters(m.width, s.regs[0], s.regs[1], words[i],
                       (s.regs[0] * s.regs[1]) % Pow2(m.width), Low64(words[i]) % Pow2(m.width));
    FoldSnoc(Low64(accIn), words, i);
  }

  /** Three steps through straight-line code at the current ip. */
  lemma RunThree(m: Machine, fetch: nat -> Option<Insn>, s: State, a: Insn, b: Insn, c: Insn)
    requires s.status == Running && fetch(s.ip) == Some(a) && fetch(s.ip + 1) == Some(b) && fetch(s.ip + 2) == Some(c)
    requires var s1 := Exec(m, a, s); s1.status == Running && s1.ip == s.ip + 1
    requires var s2 := Exec(m, b, Exec(m, a, s)); s2.status == Running && s2.ip == s.ip + 2
    ensures Run(m, fetch, s, 3) == Exec(m, c, Exec(m, b, Exec(m, a, s)))
  {
    var s1, s2 := Exec(m, a, s), Exec(m, b, Exec(m, a, s));
    assert Step(m, fetch, s) == s1 && Step(m, fetch, s1) == s2;
    assert Run(m, fetch, s, 3) == Run(m, fetch, s1, 2) == Run(m, fetch, s2, 1) == Step(m, fetch, s2);
  }

  lemma RunTwo(m: Machine, fetch: nat -> Option<Insn>, s: State)
    ensures Run(m, fetch, s, 2) == Step(m, fetch, Step(m, fetch, s))
  {
    var s1 := Step(m, fetch, s);
    assert Run(m, fetch, s, 2) == Run(m, fetch, s1, 1) == Run(m, fetch, Step(m, fetch, s1), 0);
  }

  /** A constant load on a wide machine: the low 64 bits of the register are those of the constant. */
  lemma LoadsLow(m: Machine, r: Register, value: int, s: State)
    requires WrapsWide(m)
    ensures Exec(m, Movi(r, value), s) == SetRegister(s, r, Low64(value) % Pow2(m.width))
    ensures Low64(Low64(value) % Pow2(m.width)) == Low64(value)
  {
    LowBitsOfWide(Low64(value), m.width);
  }

  lemma Prologue(m: Machine, fetch: nat -> Option<Insn>, words: seq<int>, accIn: int, s: State)
    requires WrapsWide(m) && Holds(fetch, Core(words, accIn))
    requires s.status == Running && s.ip == 0
    ensures Folded(Run(m, fetch, s, 2), words, accIn, 0)
  {
    var core := Core(words, accIn);
    assert core[0] == Movi(0, accIn) && core[1] == Movi(1, FNV_PRIME);
    LoadsLow(m, 0, accIn, s);
    var s1 := Exec(m, core[0], s);
    LoadsLow(m, 1, FNV_PRIME, s1);
    RunTwo(m, fetch, s);
    assert Step(m, fetch, s) == s1 && Step(m, fetch, s1) == Exec(m, core[1], s1);
    assert words[..0] == [];
  }

  lemma {:induction false} FoldRows(m: Machine, fetch: nat -> Option<Insn>, words: seq<int>, accIn: int, i: nat,
      s: State)
    requires WrapsWide(m) && Holds(fetch, Core(words, accIn))
    requires s.status == Running && s.ip == 0 && i <= |words|
    ensures Folded(Run(m, fetch, s, 2 + 3 * i), words, accIn, i)
    decreases i
  {
    if i == 0 {
      Prologue(m, fetch, words, accIn, s);
    } else {
      FoldRows(m, fetch, words, accIn, i - 1, s);
      FoldNextRow(m, fetch, words, accIn, i - 1, 2 + 3 * (i - 1), s);
    }
  }

  lemma FoldNextRow(m: Machine, fetch: nat -> Option<Insn>, words: seq<int>, accIn: int, i: nat, n: nat, s: State)
    requires WrapsWide(m) && Holds(fetch, Core(words, accIn))
    requires i < |words| && Folded(Run(m, fetch, s, n), words, accIn, i)
    ensures Folded(Run(m, fetch, s, n + 3), words, accIn, i + 1)
  {
    FoldOneRow(m, fetch, words, accIn, i, Run(m, fetch, s, n));
    RunSplits(m, fetch, s, n, 3);
  }

  lemma Epilogue(m: Machine, fetch: nat -> Option<Insn>, words: seq<int>, accIn: int, s: State)
    requires WrapsWide(m) && Holds(fetch, Core(words, accIn))
    requires Folded(s, words, accIn, |words|)
    ensures Run(m, fetch, s, 1).status == Running
    ensures var t := Run(m, fetch, s, 2);
            t.status == Halted && Low64(t.regs[0]) == Low64(t.regs[2]) == Witness(words, accIn)
  {
    RunTwo(m, fetch, s);
    var core := Core(words, accIn);
    assert core[s.ip] == RESULT && core[s.ip + 1] == STOP;
    assert words[..|words|] == words;
    assert Step(m, fetch, s) == Exec(m, RESULT, s) == Run(m, fetch, s, 1);
  }

  /** On every machine with registers of at least 64 bits: still running after any fewer than 3n + 4 steps, and
      then halted with the witness in the low 64 bits of R0 and R2. */
  lemma LoweredProgramComputesWitness(m: Machine, fetch: nat -> Option<Insn>, words: seq<int>, accIn: int, s: State)
    requires WrapsWide(m) && Holds(fetch, Core(words, accIn))
    requires s.status == Running && s.ip == 0
    ensures forall k :: 0 <= k < InstructionCount(|words|) ==> Run(m, fetch, s, k).status == Running
    ensures var t := Run(m, fetch, s, InstructionCount(|words|));
            t.status == Halted && Low64(t.regs[0]) == Low64(t.regs[2]) == Witness(words, accIn)
  {
    var body := 2 + 3 * |words|;
    FoldRows(m, fetch, words, accIn, |words|, s);
    Epilogue(m, fetch, words, accIn, Run(m, fetch, s, body));
    RunSplits(m, fetch, s, body, 1);
    RunSplits(m, fetch, s, body, 2);
    forall k | 0 <= k < InstructionCount(|words|)
      ensures Run(m, fetch, s, k).status == Running
    {
      WasRunning(m, fetch, s, k, body + 1);
    }
  }

  // ----- The four dialects -----

  const MSSL_IMAGE_VERSION: nat := 3

  function RegisterToken(r: Register): Token { Token("R" + Decimal(r), RegisterName(r)) }

  function NumberToken(v: nat): Token { Token(Decimal(v), Literal(v)) }

  const SLOT: Token := Token("C0", CapabilityName(0))

  function MsslLine(k: nat, i: Insn): Line {
    match i.op
    case MOVI => Instruction([Token("MOVI.WRAP", Head(Some(MOVI), Some(WRAP))), RegisterToken(i.rd),
      NumberToken(i.imm), SLOT])
    case MUL => Instruction([Token("MUL.WRAP", Head(Some(MUL), Some(WRAP))), RegisterToken(i.rd), RegisterToken(i.ra),
      RegisterToken(i.rb), SLOT])
    case XOR => Instruction([Token("XOR.WRAP", Head(Some(XOR), Some(WRAP))), RegisterToken(i.rd), RegisterToken(i.ra),
      RegisterToken(i.rb), SLOT])
    case MOV => Instruction([Token("MOV.WRAP", Head(Some(MOV), Some(WRAP))), RegisterToken(i.rd), RegisterToken(i.ra),
      SLOT])
    case _ => Instruction([Token("HALT.WRAP", Head(Some(HALT), Some(WRAP))), SLOT])
  }

  const MSSL_HEADER: seq<Line> := [
    Blank, Profile("SIM_CORE"), ImageVersion(Token("3", Literal(MSSL_IMAGE_VERSION))),
    RequestCaps([Some(Cap.CONTROL), Some(Cap.ARITH)])]

  function Lctlc11Row(k: nat, i: Insn): Row {
    var id := RowId('W', k + 1);
    match i.op
    case MOVI => Row(id, "w", MOVI, Some(i.rd), 0, [], U64(i.imm), Wide)
    case MUL => Row(id, "w", MUL, Some(i.rd), 0, [i.ra, i.rb], NoArg, WideMode(WRAP))
    case XOR => Row(id, "w", XOR, Some(i.rd), 0, [i.ra, i.rb], NoArg, Wide)
    case MOV => Row(id, "w", MOV, Some(i.rd), 0, [i.ra], NoArg, Wide)
    case _ => Row(id, "w", HALT, None, 0, [], NoArg, NoMeta)
  }

  /** A row of the LCTLC/1.2 unit; the control cell names a slot and the capability it must carry. */
  datatype ExecRow = ExecRow(id: RowId, op: Op, out: Option<Register>, slot: Register, cap: Cap, ins: seq<Register>,
                             imm: Option<nat>)

  function Lctlc12Row(k: nat, i: Insn): ExecRow {
    var id := RowId('W', k + 1);
    match i.op
    case MOVI => ExecRow(id, MOVI, Some(i.rd), 0, Cap.CONTROL, [], Some(i.imm))
    case MUL => ExecRow(id, MUL, Some(i.rd), 0, Cap.ARITH, [i.ra, i.rb], None)
    case XOR => ExecRow(id, XOR, Some(i.rd), 0, Cap.ARITH, [i.ra, i.rb], None)
    case MOV => ExecRow(id, MOV, Some(i.rd), 0, Cap.CONTROL, [i.ra], None)
    case _ => ExecRow(id, HALT, None, 0, Cap.CONTROL, [], None)
  }

  function ExecMeaning(r: ExecRow): Option<Insn> {
    var format := Format(r.op);
    if && r.cap in Needs(r.op, 0) && (r.out.Some? <==> Rd in format)
       && |r.ins| == (if Rb in format then 2 else if Ra in format then 1 else 0)
       && (r.imm.Some? <==> r.op == MOVI) && (r.imm.Some? ==> r.imm.value < WORD)
    then Some(Insn(r.op, WRAP, if r.out.Some? then r.out.value else 0, if |r.ins| > 0 then r.ins[0] else 0,
                   if |r.ins| > 1 then r.ins[1] else 0, r.slot, if r.imm.Some? then r.imm.value else 0))
    else None
  }

  /** A `vm` lane row of the LCTLC/1.0 unit for the quorum machine; it has no capability slots. */
  datatype VmRow = VmRow(id: RowId, op: Op, dst: Option<Register>, a: Option<Register>, b: Option<Register>,
                         imm: Option<nat>, modular: bool)

  function QvmRow(k: nat, i: Insn): VmRow {
    var id := RowId('V', k + 1);
    match i.op
    case MOVI => VmRow(id, MOVI, Some(i.rd), None, None, Some(i.imm), true)
    case MUL => VmRow(id, MUL, Some(i.rd), Some(i.ra), Some(i.rb), None, true)
    case XOR => VmRow(id, XOR, Some(i.rd), Some(i.ra), Some(i.rb), None, true)
    case MOV => VmRow(id, MOV, Some(i.rd), Some(i.ra), None, None, true)
    case _ => VmRow(id, HALT, None, None, None, None, false)
  }

  function VmMeaning(r: VmRow): Option<Insn> {
    var format := Format(r.op);
    if && (r.dst.Some? <==> Rd in format) && (r.a.Some? <==> Ra in format) && (r.b.Some? <==> Rb in format)
       && (r.imm.Some? <==> r.op == MOVI) && (r.imm.Some? ==> r.imm.value < WORD) && (r.modular <==> r.op != HALT)
    then Some(Insn(r.op, WRAP, if r.dst.Some? then r.dst.value else 0, if r.a.Some? then r.a.value else 0,
                   if r.b.Some? then r.b.value else 0, 0, if r.imm.Some? then r.imm.value else 0))
    else None
  }

  datatype Program = MsslText(lines: seq<Line>) | Lctlc11(unit: Unit) | Lctlc12(execRows: seq<ExecRow>)
      | Qvm(vmRows: seq<VmRow>)

  /** The instruction a program's own dialect gives each position. */
  function Executable(p: Program): nat -> Option<Insn> {
    match p
    case MsslText(lines) => Translate.SourceFetch(lines)
    case Lctlc11(unit) => Fetch(unit.rows)
    case Lctlc12(rows) => ((ip: nat) => if ip < |rows| then ExecMeaning(rows[ip]) else None)
    case Qvm(rows) => ((ip: nat) => if ip < |rows| then VmMeaning(rows[ip]) else None)
  }

  function Each<T>(f: (nat, Insn) -> T, code: seq<Insn>): (out: seq<T>)
    ensures |out| == |code|
  {
    seq(|code|, k requires 0 <= k < |code| => f(k, code[k]))
  }

  /** Rows are appended one after another, numbered from zero by a counter. */
  method Emit<T>(words: seq<int>, accIn: int, row: (nat, Insn) -> T) returns (out: seq<T>)
    ensures out == Each(row, Core(words, accIn))
  {
    out := [row(0, Movi(0, accIn)), row(1, Movi(1, FNV_PRIME))];
    ghost var done := [Movi(0, accIn), Movi(1, FNV_PRIME)];
    var n := 2;
    for i := 0 to |words|
      invariant n == 2 + 3 * i == |done|
      invariant done == [Movi(0, accIn), Movi(1, FNV_PRIME)] + Body(words[..i])
      invariant out == Each(row, done)
    {
      assert words[..i + 1][..i] == words[..i];
      done := done + [MUL_STEP, Movi(3, words[i]), XOR_STEP];
      out := out + [row(n, MUL_STEP), row(n + 1, Movi(3, words[i])), row(n + 2, XOR_STEP)];
      n := n + 3;
    }
    assert words[..|words|] == words;
    assert Core(words, accIn) == done + [RESULT, STOP];
    out := out + [row(n, RESULT), row(n + 1, STOP)];
  }

  method LowerMssl(words: seq<int>, accIn: int) returns (r: Result<seq<Line>, LoweringRefused>)
    ensures r == match CheckBound(words, BR_MAX_ROWS)
                 case Some(why) => Refused(why)
                 case None => Ok(MSSL_HEADER + Each(MsslLine, Core(words, accIn)))
  {
    var fault := CheckBound(words, BR_MAX_ROWS);
    if fault.Some? {
      return Refused(fault.value);
    }
    var body := Emit(words, accIn, MsslLine);
    return Ok(MSSL_HEADER + body);
  }

  const LCTLC11_FRAME_LINES: nat := 6

  method LowerLctlc11(words: seq<int>, accIn: int) returns (r: Result<Unit, LoweringRefused>)
    ensures r == match CheckBound(words, BR_MAX_ROWS)
                 case Some(why) => Refused(why)
                 case None => Ok(Unit(Each(Lctlc11Row, Core(words, accIn)), RowId('W', 1), [Cap.CONTROL, Cap.ARITH],
                                      InstructionCount(|words|)))
    ensures r.Refused? ==> r.reason != TooManyLines
  {
    var fault := CheckBound(words, BR_MAX_ROWS);
    if fault.Some? {
      return Refused(fault.value);
    }
    var rows := Emit(words, accIn, Lctlc11Row);
    if |rows| + LCTLC11_FRAME_LINES > BR_MAX_SOURCE_LINES {
      return Refused(TooManyLines);
    }
    return Ok(Unit(rows, RowId('W', 1), [Cap.CONTROL, Cap.ARITH], InstructionCount(|words|)));
  }

  method LowerLctlc12(words: seq<int>, accIn: int) returns (r: Result<seq<ExecRow>, LoweringRefused>)
    ensures r == match CheckBound(words, BR_MAX_ROWS)
                 case Some(why) => Refused(why)
                 case None => Ok(Each(Lctlc12Row, Core(words, accIn)))
  {
    var fault := CheckBound(words, BR_MAX_ROWS);
    if fault.Some? {
      return Refused(fault.value);
    }
    var rows := Emit(words, accIn, Lctlc12Row);
    return Ok(rows);
  }

  method LowerQvm(words: seq<int>, accIn: int) returns (r: Result<seq<VmRow>, LoweringRefused>)
    ensures r == match CheckBound(words, QVM_MAX_ROWS)
                 case Some(why) => Refused(why)
                 case None => Ok(Each(QvmRow, Core(words, accIn)))
  {
    var fault := CheckBound(words, QVM_MAX_ROWS);
    if fault.Some? {
      return Refused(fault.value);
    }
    var rows := Emit(words, accIn, QvmRow);
    return Ok(rows);
  }

  datatype Record = Record(node: NodeId, program: Program, instructions: nat, accIn: nat, referenceWitness: nat)

  /** Lowering refuses exactly the empty list and the lists whose program exceeds the node's instruction
      ceiling; what it returns is, in the node's own dialect, the witness program. */
  method LoweringRecord(node: NodeId, words: seq<int>, accIn: int) returns (r: Result<Record, LoweringRefused>)
    ensures r.Ok? <==> words != [] && InstructionCount(|words|) <= Ceiling(node)
    ensures r.Ok? <==> 1 <= |words| <= if node == XLarge then 21843 else 84
    ensures r.Refused? ==> r.reason == if words == [] then NoRows else TooManyRows
    ensures r.Ok? ==> && r.value.node == node && r.value.instructions == InstructionCount(|words|)
                      && r.value.accIn == Low64(accIn) && r.value.referenceWitness == Witness(words, accIn)
                      && Holds(Executable(r.value.program), Core(words, accIn))
  {
    var program;
    match node {
      case Small =>
        var p := LowerMssl(words, accIn);
        if p.Refused? { return Refused(p.reason); }
        program := MsslText(p.value);
        MsslMeansCore(words, accIn);
      case Medium =>
        var p := LowerLctlc11(words, accIn);
        if p.Refused? { return Refused(p.reason); }
        program := Lctlc11(p.value);
        Lctlc11MeansCore(words, accIn);
      case Large =>
        var p := LowerLctlc12(words, accIn);
        if p.Refused? { return Refused(p.reason); }
        program := Lctlc12(p.value);
        Lctlc12MeansCore(words, accIn);
      case XLarge =>
        var p := LowerQvm(words, accIn);
        if p.Refused? { return Refused(p.reason); }
        program := Qvm(p.value);
        QvmMeansCore(words, accIn);
    }
    var reference := ReferenceWitnessWords(words, accIn);
    return Ok(Record(node, program, InstructionCount(|words|), Low64(accIn), reference));
  }

  // ----- Each dialect's rows mean the core program -----

  predicate IsCoreInsn(i: Insn) {
    i in {MUL_STEP, XOR_STEP, RESULT, STOP} || (i.op == MOVI && i == Movi(i.rd, i.imm))
  }

  lemma {:induction false} BodyIsCore(words: seq<int>)
    ensures forall k :: 0 <= k < |Body(words)| ==> IsCoreInsn(Body(words)[k])
    decreases |words|
  {
    if words != [] {
      BodyIsCore(words[..|words| - 1]);
    }
  }

  lemma CoreIsCore(words: seq<int>, accIn: int)
    ensures forall k :: 0 <= k < |Core(words, accIn)| ==> IsCoreInsn(Core(words, accIn)[k])
  {
    BodyIsCore(words);
  }

  lemma Lctlc11MeansCore(words: seq<int>, accIn: int)
    ensures Holds(Fetch(Each(Lctlc11Row, Core(words, accIn))), Core(words, accIn))
  {
    CoreIsCore(words, accIn);
    var rows := Each(Lctlc11Row, Core(words, accIn));
    forall k: nat | k < |rows|
      ensures Meaning(rows, rows[k]) == Some(Core(words, accIn)[k])
    {
      Lctlc11RowMeans(rows, k, Core(words, accIn)[k]);
    }
  }

  lemma Lctlc11RowMeans(rows: seq<Row>, k: nat, i: Insn)
    requires IsCoreInsn(i)
    ensures Meaning(rows, Lctlc11Row(k, i)) == Some(i)
  {
  }

  lemma Lctlc12MeansCore(words: seq<int>, accIn: int)
    ensures Holds(Executable(Lctlc12(Each(Lctlc12Row, Core(words, accIn)))), Core(words, accIn))
  {
    CoreIsCore(words, accIn);
    var rows := Each(Lctlc12Row, Core(words, accIn));
    forall k: nat | k < |rows|
      ensures ExecMeaning(rows[k]) == Some(Core(words, accIn)[k])
    {
      Lctlc12RowMeans(k, Core(words, accIn)[k]);
    }
  }

  lemma Lctlc12RowMeans(k: nat, i: Insn)
    requires IsCoreInsn(i)
    ensures ExecMeaning(Lctlc12Row(k, i)) == Some(i)
  {
  }

  lemma QvmMeansCore(words: seq<int>, accIn: int)
    ensures Holds(Executable(Qvm(Each(QvmRow, Core(words, accIn)))), Core(words, accIn))
  {
    CoreIsCore(words, accIn);
    var rows := Each(QvmRow, Core(words, accIn));
    forall k: nat | k < |rows|
      ensures VmMeaning(rows[k]) == Some(Core(words, accIn)[k])
    {
      QvmRowMeans(k, Core(words, accIn)[k]);
    }
  }

  lemma QvmRowMeans(k: nat, i: Insn)
    requires IsCoreInsn(i)
    ensures VmMeaning(QvmRow(k, i)) == Some(i)
  {
  }

  /** Instruction lines after a header without labels or instructions are the program, line for line. */
  lemma {:induction false} PlainCode(header: seq<Line>, lines: seq<Line>)
    requires forall l :: l in header ==> !l.Instruction? && !l.Label?
    requires forall l :: l in lines ==> l.Instruction?
    ensures Translate.Labels(header + lines) == map[]
    ensures var code := Translate.Code(header + lines);
            |code| == |lines| && forall k :: 0 <= k < |lines| ==> code[k].toks == lines[k].toks
    decreases |header| + |lines|
  {
    var all := header + lines;
    if lines != [] {
      var before := lines[..|lines| - 1];
      assert all[..|all| - 1] == header + before;
      PlainCode(header, before);
    } else if header != [] {
      assert all[..|all| - 1] == header[..|header| - 1] + [];
      PlainCode(header[..|header| - 1], []);
    }
  }

  lemma MsslLineSpells(k: nat, i: Insn)
    requires IsCoreInsn(i)
    ensures MsslLine(k, i).Instruction? && Spells(MsslLine(k, i).toks, i) && Canonical(i)
    ensures Target !in Format(i.op) && Svc !in Format(i.op)
  {
  }

  lemma MsslLineMeans(k: nat, i: Insn, count: nat)
    requires IsCoreInsn(i)
    ensures MsslLine(k, i).Instruction? && Assemble(MsslLine(k, i).toks, map[], count) == Ok(i)
  {
    MsslLineSpells(k, i);
    var toks := MsslLine(k, i).toks;
    AssembleReadsSpelling(toks, i, map[], count);
  }

  lemma MsslCode(words: seq<int>, accIn: int)
    ensures var lines := MSSL_HEADER + Each(MsslLine, Core(words, accIn));
            && Translate.Labels(lines) == map[]
            && |Translate.Code(lines)| == |Core(words, accIn)|
            && forall k :: 0 <= k < |Core(words, accIn)| ==>
                 Translate.Code(lines)[k].toks == MsslLine(k, Core(words, accIn)[k]).toks
                 && Assemble(Translate.Code(lines)[k].toks, map[], |Core(words, accIn)|) == Ok(Core(words, accIn)[k])
  {
    var core := Core(words, accIn);
    CoreIsCore(words, accIn);
    forall k: nat, i | IsCoreInsn(i)
      ensures MsslLine(k, i).Instruction? && Assemble(MsslLine(k, i).toks, map[], |core|) == Ok(i)
    {
      MsslLineMeans(k, i, |core|);
    }
    PlainCode(MSSL_HEADER, Each(MsslLine, core));
  }

  lemma MsslMeansCore(words: seq<int>, accIn: int)
    ensures Holds(Translate.SourceFetch(MSSL_HEADER + Each(MsslLine, Core(words, accIn))), Core(words, accIn))
  {
    MsslCode(words, accIn);
  }
}
