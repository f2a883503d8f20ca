/** One small-step register machine for all four nodes. Registers are N bits wide for any N; arithmetic,
    capability checks and services are parameters, so every theorem holds for every choice of them. */
module Machine {
  import opened Common
  import opened Arith64

  datatype Op = NOP | MOVI | MOV | JMP | JZ | JNZ | HALT | ADD | SUB | MUL | DIVU | MODU | AND | OR | XOR | NOT
              | SHL | SHR | CMP | LOAD | STORE | PUSH | POP | SVC

  datatype Mode = WRAP | CHECKED | SATURATE | TRAPPING

  const REGISTERS: nat := 16
  type Register = r: nat | r < REGISTERS

  type RegisterFile = s: seq<nat> | |s| == REGISTERS witness seq(REGISTERS, _ => 0)

  /** A decoded instruction; `imm` is the literal, the address, or the resolved branch target. */
  datatype Insn = Insn(op: Op, mode: Mode, rd: Register, ra: Register, rb: Register, cap: Register, imm: nat)

  datatype Trap = BadOpcode | Capability | Bounds | Stack | Arithmetic(code: nat) | Service(code: nat)

  datatype Status = Running | Halted | Trapped(why: Trap)

  datatype State = State(ip: nat, regs: RegisterFile, zero: bool, mem: map<nat, nat>, stack: seq<nat>, world: int,
                         status: Status)

  datatype AluResult = Value(v: nat, zero: bool) | Fault(code: nat)

  datatype ServiceResult = Done(v: nat, world: int) | Failed(code: nat)

  datatype Machine = Machine(
    width: nat, memoryBytes: nat, stackWords: nat,
    alu: (Op, Mode, nat, nat) -> AluResult,
    mayUse: (Register, Op, State) -> bool,
    service: (nat, nat, nat, State) -> ServiceResult)

  /** The operations whose result the arithmetic mode can change. */
  predicate ModeMatters(op: Op) {
    op in {ADD, SUB, MUL, DIVU, MODU, SHL, SHR}
  }

  ghost predicate ModesAreInert(m: Machine) {
    forall op, mode, mode', x, y :: !ModeMatters(op) ==> m.alu(op, mode, x, y) == m.alu(op, mode', x, y)
  }

  function Stop(s: State, why: Trap): State {
    s.(status := Trapped(why))
  }

  function SetRegister(s: State, r: Register, v: nat): State {
    s.(regs := s.regs[r := v], ip := s.ip + 1)
  }

  function Compute(m: Machine, i: Insn, s: State, x: nat, y: nat): State {
    match m.alu(i.op, i.mode, x, y)
    case Value(v, zero) => SetRegister(s, i.rd, v).(zero := zero)
    case Fault(code) => Stop(s, Arithmetic(code))
  }

  function Exec(m: Machine, i: Insn, s: State): State {
    if !m.mayUse(i.cap, i.op, s) then Stop(s, Capability) else
    match i.op
    case NOP => s.(ip := s.ip + 1)
    case HALT => s.(status := Halted)
    case MOVI => SetRegister(s, i.rd, i.imm % Pow2(m.width))
    case MOV => SetRegister(s, i.rd, s.regs[i.ra])
    case JMP => s.(ip := i.imm)
    case JZ => s.(ip := if s.zero then i.imm else s.ip + 1)
    case JNZ => s.(ip := if s.zero then s.ip + 1 else i.imm)
    case NOT => Compute(m, i, s, s.regs[i.ra], 0)
    case SHL => Compute(m, i, s, s.regs[i.ra], i.imm)
    case SHR => Compute(m, i, s, s.regs[i.ra], i.imm)
    case LOAD =>
      if i.imm + 8 > m.memoryBytes then Stop(s, Bounds)
      else SetRegister(s, i.rd, if i.imm in s.mem then s.mem[i.imm] else 0)
    case STORE =>
      if i.imm + 8 > m.memoryBytes then Stop(s, Bounds)
      else s.(mem := s.mem[i.imm := Low64(s.regs[i.ra])], ip := s.ip + 1)
    case PUSH =>
      if |s.stack| >= m.stackWords then Stop(s, Stack)
      else s.(stack := s.stack + [s.regs[i.ra]], ip := s.ip + 1)
    case POP =>
      if s.stack == [] then Stop(s, Stack)
      else SetRegister(s, i.rd, s.stack[|s.stack| - 1]).(stack := s.stack[..|s.stack| - 1])
    case SVC => (
      match m.service(i.imm, s.regs[i.ra], s.regs[i.rb], s)
      case Done(v, world) => SetRegister(s, i.rd, v).(world := world)
      case Failed(code) => Stop(s, Service(code)))
    case _ => Compute(m, i, s, s.regs[i.ra], s.regs[i.rb])
  }

  /** One step of a program given by its decoder: `fetch(ip)` is the instruction at ip, if there is one. */
  function Step(m: Machine, fetch: nat -> Option<Insn>, s: State): State {
    if s.status != Running then s
    else match fetch(s.ip)
      case None => Stop(s, Bounds)
      case Some(i) => Exec(m, i, s)
  }

  function Run(m: Machine, fetch: nat -> Option<Insn>, s: State, steps: nat): State
    decreases steps
  {
    if steps == 0 then s else Run(m, fetch, Step(m, fetch, s), steps - 1)
  }

  lemma {:induction false} RunSplits(m: Machine, fetch: nat -> Option<Insn>, s: State, j: nat, k: nat)
    ensures Run(m, fetch, s, j + k) == Run(m, fetch, Run(m, fetch, s, j), k)
    decreases j
  {
    if j > 0 {
      RunSplits(m, fetch, Step(m, fetch, s), j - 1, k);
    }
  }

  lemma {:induction false} StoppedStays(m: Machine, fetch: nat -> Option<Insn>, s: State, steps: nat)
    requires s.status != Running
    ensures Run(m, fetch, s, steps) == s
    decreases steps
  {
    if steps > 0 {
      StoppedStays(m, fetch, s, steps - 1);
    }
  }

  /** A program running after k steps was running after every earlier number of steps. */
  lemma WasRunning(m: Machine, fetch: nat -> Option<Insn>, s: State, j: nat, k: nat)
    requires j <= k && Run(m, fetch, s, k).status == Running
    ensures Run(m, fetch, s, j).status == Running
  {
    RunSplits(m, fetch, s, j, k - j);
    if Run(m, fetch, s, j).status != Running {
      StoppedStays(m, fetch, Run(m, fetch, s, j), k - j);
    }
  }

  /** Two instructions a machine with inert modes cannot tell apart. */
  predicate SameMeaning(a: Insn, b: Insn) {
    a == b || (a == b.(mode := a.mode) && !ModeMatters(a.op))
  }

  predicate SameFetch(a: Option<Insn>, b: Option<Insn>) {
    match (a, b)
    case (None, None) => true
    case (Some(i), Some(j)) => SameMeaning(i, j)
    case _ => false
  }

  lemma InertModeIsUnobservable(m: Machine, a: Insn, b: Insn, s: State)
    requires ModesAreInert(m) && SameMeaning(a, b)
    ensures Exec(m, a, s) == Exec(m, b, s)
  {
  }

  lemma {:induction false} SameCodeSameRun(m: Machine, f: nat -> Option<Insn>, g: nat -> Option<Insn>, s: State,
      steps: nat)
    requires ModesAreInert(m) && forall ip :: SameFetch(f(ip), g(ip))
    ensures Run(m, f, s, steps) == Run(m, g, s, steps)
    decreases steps
  {
    if steps > 0 {
      assert SameFetch(f(s.ip), g(s.ip));
      if s.status == Running && f(s.ip).Some? {
        InertModeIsUnobservable(m, f(s.ip).value, g(s.ip).value, s);
      }
      SameCodeSameRun(m, f, g, Step(m, f, s), steps - 1);
    }
  }
}
