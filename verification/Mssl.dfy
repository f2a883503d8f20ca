/** MSSL/ASM-1 source: classified lines and tokens, the operand format of each opcode, and what an
    instruction line means as a machine instruction. Scanning text into tokens is not modelled: a token
    carries its text (labels are looked up by text) and the class the scanner's patterns give it. */
module Mssl {
  import opened Common
  import opened Machine

  datatype TokenClass =
    | RegisterName(n: nat)
    | CapabilityName(n: nat)
    | Literal(v: int)
    | ServiceName(index: nat)
    | Head(op: Option<Op>, mode: Option<Mode>)
    | Plain

  datatype Token = Token(text: string, cls: TokenClass)

  const SERVICE_COUNT: nat := 9

  datatype Cap = CONTROL | ARITH | MEMORY | STACK | SERVICE | STATE | UPDATE | DIAG

  datatype Line =
    | Blank
    | Profile(name: string)
    | ImageVersion(value: Token)
    | RequestCaps(caps: seq<Option<Cap>>)
    | Data
    | UnknownDirective
    | Label(name: string)
    | Instruction(toks: seq<Token>)

  /** The operand positions an opcode can have. */
  datatype Field = Rd | Ra | Rb | Imm | Target | Svc | Cc

  function Format(op: Op): seq<Field> {
    match op
    case NOP => [Cc]
    case HALT => [Cc]
    case MOVI => [Rd, Imm, Cc]
    case MOV => [Rd, Ra, Cc]
    case JMP => [Target, Cc]
    case JZ => [Target, Cc]
    case JNZ => [Target, Cc]
    case NOT => [Rd, Ra, Cc]
    case SHL => [Rd, Ra, Imm, Cc]
    case SHR => [Rd, Ra, Imm, Cc]
    case LOAD => [Rd, Imm, Cc]
    case STORE => [Ra, Imm, Cc]
    case PUSH => [Ra, Cc]
    case POP => [Rd, Cc]
    case SVC => [Svc, Rd, Ra, Rb, Cc]
    case _ => [Rd, Ra, Rb, Cc]
  }

  datatype Complaint =
    | NoTokens | NoHead | UnknownOpcode | UnknownMode | WrongOperandCount | BadRegister | BadCapability | BadLiteral
    | BadTarget | UnknownService | ModeOnControl | ModeOnMemory
    | BadLabel | DuplicateLabel | UnknownCap | DataSection | BadDirective
    | NoInstructions | NoCaps | Unreachable

  function RegisterOf(t: Token): Result<Register, Complaint> {
    match t.cls
    case RegisterName(n) => if n < REGISTERS then Ok(n) else Refused(BadRegister)
    case _ => Refused(BadRegister)
  }

  function CapabilityOf(t: Token): Result<Register, Complaint> {
    match t.cls
    case CapabilityName(n) => if n < REGISTERS then Ok(n) else Refused(BadCapability)
    case _ => Refused(BadCapability)
  }

  function LiteralOf(t: Token): Result<nat, Complaint> {
    match t.cls
    case Literal(v) => if v >= 0 then Ok(v) else Refused(BadLiteral)
    case _ => Refused(BadLiteral)
  }

  /** A branch operand is a label if its text names one, and otherwise an unsigned literal. */
  function TargetOf(t: Token, labels: map<string, nat>, count: nat): Result<nat, Complaint> {
    var target := if t.text in labels then Ok(labels[t.text]) else LiteralOf(t);
    match target
    case Refused(_) => target
    case Ok(k) => if k < count then target else Refused(BadTarget)
  }

  function ServiceOf(t: Token): Result<nat, Complaint> {
    match t.cls
    case ServiceName(k) => if k < SERVICE_COUNT then Ok(k) else Refused(UnknownService)
    case _ => Refused(UnknownService)
  }

  function WithField(i: Insn, f: Field, t: Token, labels: map<string, nat>, count: nat): Result<Insn, Complaint> {
    match f
    case Rd => (match RegisterOf(t) case Ok(n) => Ok(i.(rd := n)) case Refused(c) => Refused(c))
    case Ra => (match RegisterOf(t) case Ok(n) => Ok(i.(ra := n)) case Refused(c) => Refused(c))
    case Rb => (match RegisterOf(t) case Ok(n) => Ok(i.(rb := n)) case Refused(c) => Refused(c))
    case Cc => (match CapabilityOf(t) case Ok(n) => Ok(i.(cap := n)) case Refused(c) => Refused(c))
    case Imm => (match LiteralOf(t) case Ok(v) => Ok(i.(imm := v)) case Refused(c) => Refused(c))
    case Target => (match TargetOf(t, labels, count) case Ok(k) => Ok(i.(imm := k)) case Refused(c) => Refused(c))
    case Svc => (match ServiceOf(t) case Ok(k) => Ok(i.(imm := k)) case Refused(c) => Refused(c))
  }

  /** Operands are read left to right; the first bad one decides the complaint. */
  function Operands(i: Insn, fields: seq<Field>, toks: seq<Token>, labels: map<string, nat>, count: nat)
    : Result<Insn, Complaint>
    requires |fields| == |toks|
    decreases |fields|
  {
    if fields == [] then Ok(i) else
    match WithField(i, fields[0], toks[0], labels, count)
    case Refused(c) => Refused(c)
    case Ok(j) => Operands(j, fields[1..], toks[1..], labels, count)
  }

  /** The machine instruction a source line stands for. */
  function Assemble(toks: seq<Token>, labels: map<string, nat>, count: nat): Result<Insn, Complaint> {
    if toks == [] then Refused(NoTokens) else
    match toks[0].cls
    case Head(op, mode) =>
      if op.None? then Refused(UnknownOpcode)
      else if mode.None? then Refused(UnknownMode)
      else if |toks| - 1 != |Format(op.value)| then Refused(WrongOperandCount)
      else Operands(Insn(op.value, mode.value, 0, 0, 0, 0, 0), Format(op.value), toks[1..], labels, count)
    case _ => Refused(NoHead)
  }

  // ----- Writing an instruction in the documented grammar and reading it back -----

  function Spelling(i: Insn, f: Field): TokenClass {
    match f
    case Rd => RegisterName(i.rd)
    case Ra => RegisterName(i.ra)
    case Rb => RegisterName(i.rb)
    case Cc => CapabilityName(i.cap)
    case Imm => Literal(i.imm)
    case Target => Literal(i.imm)
    case Svc => ServiceName(i.imm)
  }

  /** toks spells i: the head names opcode and mode, and each operand position holds its part of i. */
  ghost predicate Spells(toks: seq<Token>, i: Insn) {
    var format := Format(i.op);
    && |toks| == 1 + |format|
    && toks[0].cls == Head(Some(i.op), Some(i.mode))
    && forall k :: 0 <= k < |format| ==> toks[k + 1].cls == Spelling(i, format[k])
  }

  /** Positions the opcode does not have are zero. */
  predicate Canonical(i: Insn) {
    var format := Format(i.op);
    && (Rd in format || i.rd == 0) && (Ra in format || i.ra == 0) && (Rb in format || i.rb == 0)
    && (Imm in format || Target in format || Svc in format || i.imm == 0)
  }

  /** Every instruction can be written down and means itself, whatever labels surround it, provided no label
      has the text of a numeric branch target. */
  lemma AssembleReadsSpelling(toks: seq<Token>, i: Insn, labels: map<string, nat>, count: nat)
    requires Spells(toks, i) && Canonical(i)
    requires forall k :: 0 <= k < |Format(i.op)| && Format(i.op)[k] == Target ==>
                           i.imm < count && toks[k + 1].text !in labels
    requires Svc in Format(i.op) ==> i.imm < SERVICE_COUNT
    ensures Assemble(toks, labels, count) == Ok(i)
  {
    var blank := Insn(i.op, i.mode, 0, 0, 0, 0, 0);
    var format := Format(i.op);
    ReadsSpelling(blank, i, format, toks[1..], labels, count);
    CanonicalIsFilled(i);
  }

  lemma CanonicalIsFilled(i: Insn)
    requires Canonical(i)
    ensures Fill(Insn(i.op, i.mode, 0, 0, 0, 0, 0), i, Format(i.op)) == i
  {
    FillKeeps(Insn(i.op, i.mode, 0, 0, 0, 0, 0), i, Format(i.op));
    assert Format(i.op)[|Format(i.op)| - 1] == Cc;
  }

  function Put(j: Insn, i: Insn, f: Field): Insn {
    match f
    case Rd => j.(rd := i.rd)
    case Ra => j.(ra := i.ra)
    case Rb => j.(rb := i.rb)
    case Cc => j.(cap := i.cap)
    case _ => j.(imm := i.imm)
  }

  function Fill(j: Insn, i: Insn, fields: seq<Field>): Insn
    decreases |fields|
  {
    if fields == [] then j else Fill(Put(j, i, fields[0]), i, fields[1..])
  }

  lemma {:induction false} FillKeeps(j: Insn, i: Insn, fields: seq<Field>)
    ensures var r := Fill(j, i, fields);
            && r.op == j.op && r.mode == j.mode
            && r.rd == (if Rd in fields then i.rd else j.rd)
            && r.ra == (if Ra in fields then i.ra else j.ra)
            && r.rb == (if Rb in fields then i.rb else j.rb)
            && r.cap == (if Cc in fields then i.cap else j.cap)
            && r.imm == (if Imm in fields || Target in fields || Svc in fields then i.imm else j.imm)
    decreases |fields|
  {
    if fields != [] {
      FillKeeps(Put(j, i, fields[0]), i, fields[1..]);
      assert fields == [fields[0]] + fields[1..];
    }
  }

  /** Reading operands fills in exactly the parts they spell. */
  lemma {:induction false} ReadsSpelling(j: Insn, i: Insn, fields: seq<Field>, toks: seq<Token>,
                                         labels: map<string, nat>, count: nat)
    requires |fields| == |toks|
    requires forall k :: 0 <= k < |fields| ==> toks[k].cls == Spelling(i, fields[k])
    requires forall k :: 0 <= k < |fields| && fields[k] == Target ==> i.imm < count && toks[k].text !in labels
    requires Svc in fields ==> i.imm < SERVICE_COUNT
    ensures Operands(j, fields, toks, labels, count) == Ok(Fill(j, i, fields))
    decreases |fields|
  {
    if fields != [] {
      assert toks[0].cls == Spelling(i, fields[0]);
      assert WithField(j, fields[0], toks[0], labels, count) == Ok(Put(j, i, fields[0]));
      ReadsSpelling(Put(j, i, fields[0]), i, fields[1..], toks[1..], labels, count);
    }
  }
}
