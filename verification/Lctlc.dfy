/** LCTLC/1.1 units: rows of columns, and what a row means as a machine instruction. A branch names the
    row it goes to; there is no other label table. */
module Lctlc {
  import opened Common
  import opened Arith64
  import opened Machine
  import opened Mssl

  datatype RowId = RowId(prefix: char, number: nat)

  datatype Arg = NoArg | U64(v: nat) | U32(v: nat) | Mem(address: nat) | ToRow(id: RowId) | ServiceArg(index: nat)

  datatype Meta = NoMeta | Scalar64 | Wide | WideMode(mode: Mode)

  datatype Row = Row(id: RowId, lane: string, op: Op, out: Option<Register>, ctrl: Register, ins: seq<Register>,
                     arg: Arg, meta: Meta)

  datatype Unit = Unit(rows: seq<Row>, entry: RowId, caps: seq<Cap>, maxSteps: nat)

  predicate IsControl(op: Op) {
    op in {NOP, JMP, JZ, JNZ, HALT}
  }

  predicate IsMemory(op: Op) {
    op in {LOAD, STORE}
  }

  predicate IsBranch(op: Op) {
    op in {JMP, JZ, JNZ}
  }

  /** The META cell each kind of operation may carry. */
  predicate MetaAllowed(op: Op, meta: Meta) {
    if IsControl(op) then meta == NoMeta
    else if IsMemory(op) then meta == Scalar64
    else meta == Wide || (meta.WideMode? && ModeMatters(op))
  }

  /** The position of the first row with this ID. */
  function FindRow(rows: seq<Row>, id: RowId): Option<nat> {
    if rows == [] then None
    else if rows[0].id == id then Some(0)
    else match FindRow(rows[1..], id)
      case None => None
      case Some(k) => Some(k + 1)
  }

  function ArgValue(rows: seq<Row>, op: Op, arg: Arg): Option<nat> {
    match arg
    case U64(v) => if op == MOVI && v < WORD then Some(v) else None
    case U32(v) => if op in {SHL, SHR} && v < 0x1_0000_0000 then Some(v) else None
    case Mem(a) => if IsMemory(op) then Some(a) else None
    case ToRow(id) => if IsBranch(op) then FindRow(rows, id) else None
    case ServiceArg(k) => if op == SVC && k < SERVICE_COUNT then Some(k) else None
    case NoArg => if op in {MOVI, SHL, SHR, SVC} || IsMemory(op) || IsBranch(op) then None else Some(0)
  }

  predicate ColumnsFit(r: Row) {
    var format := Format(r.op);
    && (r.out.Some? <==> Rd in format)
    && |r.ins| == (if Rb in format then 2 else if Ra in format then 1 else 0)
  }

  /** The machine instruction a row stands for, or nothing if the row is malformed. */
  function Meaning(rows: seq<Row>, r: Row): Option<Insn> {
    if !MetaAllowed(r.op, r.meta) || !ColumnsFit(r) then None else
    match ArgValue(rows, r.op, r.arg)
    case None => None
    case Some(imm) => Some(Insn(
      r.op, if r.meta.WideMode? then r.meta.mode else WRAP,
      if r.out.Some? then r.out.value else 0,
      if |r.ins| > 0 then r.ins[0] else 0,
      if |r.ins| > 1 then r.ins[1] else 0,
      r.ctrl, imm))
  }

  function Fetch(rows: seq<Row>): nat -> Option<Insn> {
    (ip: nat) => if ip < |rows| then Meaning(rows, rows[ip]) else None
  }

  /** A service index always needs CONTROL, and from CONFIGURE on one more capability. */
  function ServiceCaps(index: nat): set<Cap> {
    if index in {4, 5} then {Cap.CONTROL, Cap.SERVICE}
    else if index == 6 then {Cap.CONTROL, Cap.DIAG}
    else if index in {7, 8} then {Cap.CONTROL, Cap.STATE}
    else {Cap.CONTROL}
  }

  function Needs(op: Op, imm: nat): set<Cap> {
    match op
    case LOAD => {Cap.MEMORY}
    case STORE => {Cap.MEMORY}
    case PUSH => {Cap.STACK}
    case POP => {Cap.STACK}
    case SVC => ServiceCaps(imm)
    case NOP => {Cap.CONTROL}
    case MOVI => {Cap.CONTROL}
    case MOV => {Cap.CONTROL}
    case JMP => {Cap.CONTROL}
    case JZ => {Cap.CONTROL}
    case JNZ => {Cap.CONTROL}
    case HALT => {Cap.CONTROL}
    case _ => {Cap.ARITH}
  }

  const CAP_ORDER: seq<Cap> := [Cap.CONTROL, Cap.ARITH, Cap.MEMORY, Cap.STACK, Cap.SERVICE, Cap.STATE, Cap.UPDATE,
      Cap.DIAG]

  function InOrder(order: seq<Cap>, need: set<Cap>): seq<Cap> {
    if order == [] then [] else (if order[0] in need then [order[0]] else []) + InOrder(order[1..], need)
  }

  /** Rows control can pass to after row k. */
  function Successors(i: Insn, k: nat): seq<nat> {
    match i.op
    case HALT => []
    case JMP => [i.imm]
    case JZ => [i.imm, k + 1]
    case JNZ => [i.imm, k + 1]
    case _ => [k + 1]
  }
}
