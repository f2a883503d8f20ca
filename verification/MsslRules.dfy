/** What the translator emits for each kind of instruction line, token by token, which source lines it refuses, and
    which capabilities it declares: the documented grammar, apart from the table of operand positions. */
module MsslRules {
  import opened Common
  import opened Machine
  import opened Mssl
  import opened Lctlc
  import opened Reachability
  import opened Translate

  // ----- Tokens -----

  function Reg(t: Token): Option<Register> {
    if t.cls.RegisterName? && t.cls.n < 16 then Some(t.cls.n) else None
  }

  function Slot(t: Token): Option<Register> {
    if t.cls.CapabilityName? && t.cls.n < 16 then Some(t.cls.n) else None
  }

  function Num(t: Token): Option<nat> {
    if t.cls.Literal? && t.cls.v >= 0 then Some(t.cls.v) else None
  }

  /** A label if the token names one, and otherwise a number; in either case inside the program. */
  function Goal(t: Token, labels: map<string, nat>, count: nat): Option<nat> {
    var k := if t.text in labels then Some(labels[t.text]) else Num(t);
    if k.Some? && k.value < count then k else None
  }

  function Service(t: Token): Option<nat> {
    if t.cls.ServiceName? && t.cls.index < 9 then Some(t.cls.index) else None
  }

  predicate HasHead(toks: seq<Token>, op: Op, mode: Mode) {
    toks != [] && toks[0].cls == Head(Some(op), Some(mode))
  }

  // ----- Reading operands one after the other -----

  function Then(r: Result<Insn, Complaint>, f: Field, t: Token, labels: map<string, nat>, count: nat)
    : Result<Insn, Complaint>
  {
    match r
    case Refused(c) => Refused(c)
    case Ok(i) => WithField(i, f, t, labels, count)
  }

  lemma {:induction false} OneMoreOperand(i: Insn, fields: seq<Field>, f: Field, toks: seq<Token>, t: Token,
                                          labels: map<string, nat>, count: nat)
    requires |fields| == |toks|
    ensures Operands(i, fields + [f], toks + [t], labels, count) ==
            Then(Operands(i, fields, toks, labels, count), f, t, labels, count)
    decreases |fields|
  {
    if fields == [] {
      assert fields + [f] == [f] && toks + [t] == [t] && [f][1..] == [] && [t][1..] == [];
      assert Operands(i, [f], [t], labels, count) == WithField(i, f, t, labels, count);
    } else {
      assert (fields + [f])[1..] == fields[1..] + [f] && (toks + [t])[1..] == toks[1..] + [t];
      var next := WithField(i, fields[0], toks[0], labels, count);
      if next.Ok? {
        OneMoreOperand(next.value, fields[1..], f, toks[1..], t, labels, count);
      }
    }
  }

  lemma Operands1(i: Insn, f: Field, t: Token, labels: map<string, nat>, count: nat)
    ensures Operands(i, [f], [t], labels, count) == Then(Ok(i), f, t, labels, count)
  {
    OneMoreOperand(i, [], f, [], t, labels, count);
    assert [] + [f] == [f] && [] + [t] == [t];
  }

  lemma Operands2(i: Insn, f: Field, g: Field, t: Token, u: Token, labels: map<string, nat>, count: nat)
    ensures Operands(i, [f, g], [t, u], labels, count) == Then(Then(Ok(i), f, t, labels, count), g, u, labels, count)
  {
    Operands1(i, f, t, labels, count);
    OneMoreOperand(i, [f], g, [t], u, labels, count);
    assert [f] + [g] == [f, g] && [t] + [u] == [t, u];
  }

  lemma Operands3(i: Insn, f: Field, g: Field, h: Field, t: Token, u: Token, v: Token, labels: map<string, nat>,
      count: nat)
    ensures Operands(i, [f, g, h], [t, u, v], labels, count) ==
            Then(Then(Then(Ok(i), f, t, labels, count), g, u, labels, count), h, v, labels, count)
  {
    Operands2(i, f, g, t, u, labels, count);
    OneMoreOperand(i, [f, g], h, [t, u], v, labels, count);
    assert [f, g] + [h] == [f, g, h] && [t, u] + [v] == [t, u, v];
  }

  lemma Operands4(i: Insn, f: Field, g: Field, h: Field, e: Field, t: Token, u: Token, v: Token, w: Token,
                  labels: map<string, nat>, count: nat)
    ensures Operands(i, [f, g, h, e], [t, u, v, w], labels, count) ==
            Then(Then(Then(Then(Ok(i), f, t, labels, count), g, u, labels, count), h, v, labels, count), e, w, labels,
              count)
  {
    Operands3(i, f, g, h, t, u, v, labels, count);
    OneMoreOperand(i, [f, g, h], e, [t, u, v], w, labels, count);
    assert [f, g, h] + [e] == [f, g, h, e] && [t, u, v] + [w] == [t, u, v, w];
  }

  lemma Operands5(i: Insn, f: Field, g: Field, h: Field, e: Field, d: Field,
                  t: Token, u: Token, v: Token, w: Token, x: Token, labels: map<string, nat>, count: nat)
    ensures Operands(i, [f, g, h, e, d], [t, u, v, w, x], labels, count) ==
            Then(Then(Then(Then(Then(Ok(i), f, t, labels, count), g, u, labels, count), h, v, labels, count),
                      e, w, labels, count), d, x, labels, count)
  {
    Operands4(i, f, g, h, e, t, u, v, w, labels, count);
    OneMoreOperand(i, [f, g, h, e], d, [t, u, v, w], x, labels, count);
    assert [f, g, h, e] + [d] == [f, g, h, e, d] && [t, u, v, w] + [x] == [t, u, v, w, x];
  }

  lemma RegIs(i: Insn, t: Token, labels: map<string, nat>, count: nat)
    ensures WithField(i, Rd, t, labels, count).Ok? <==> Reg(t).Some?
    ensures WithField(i, Ra, t, labels, count).Ok? <==> Reg(t).Some?
    ensures WithField(i, Rb, t, labels, count).Ok? <==> Reg(t).Some?
    ensures Reg(t).Some? ==>
              && WithField(i, Rd, t, labels, count) == Ok(i.(rd := Reg(t).value))
              && WithField(i, Ra, t, labels, count) == Ok(i.(ra := Reg(t).value))
              && WithField(i, Rb, t, labels, count) == Ok(i.(rb := Reg(t).value))
  {
  }

  lemma OtherFieldsAre(i: Insn, t: Token, labels: map<string, nat>, count: nat)
    ensures WithField(i, Cc, t, labels, count).Ok? <==> Slot(t).Some?
    ensures Slot(t).Some? ==> WithField(i, Cc, t, labels, count) == Ok(i.(cap := Slot(t).value))
    ensures WithField(i, Imm, t, labels, count).Ok? <==> Num(t).Some?
    ensures Num(t).Some? ==> WithField(i, Imm, t, labels, count) == Ok(i.(imm := Num(t).value))
    ensures WithField(i, Target, t, labels, count).Ok? <==> Goal(t, labels, count).Some?
    ensures Goal(t, labels, count).Some? ==>
              WithField(i, Target, t, labels, count) == Ok(i.(imm := Goal(t, labels, count).value))
    ensures WithField(i, Svc, t, labels, count).Ok? <==> Service(t).Some?
    ensures Service(t).Some? ==> WithField(i, Svc, t, labels, count) == Ok(i.(imm := Service(t).value))
  {
  }

  // ----- The row of each kind of line -----

  function Blank(op: Op, mode: Mode): Insn {
    Insn(op, mode, 0, 0, 0, 0, 0)
  }

  /** The row of line k: its lane and identity, and what the line says. */
  function TheRow(k: nat, op: Op, out: Option<Register>, slot: Register, ins: seq<Register>, arg: Arg,
      meta: Meta): Row {
    Row(RowId('T', k + 1), "t", op, out, slot, ins, arg, meta)
  }

  predicate WithMode(op: Op, mode: Mode) {
    op in {ADD, SUB, MUL, DIVU, MODU, SHL, SHR} && mode != WRAP
  }

  lemma Joined(a: Register, b: Register)
    ensures [a] + [b] == [a, b] && [a] + [] == [a]
  {
  }

  /** A line that assembles, lowered: the pieces that its opcode has, and what may go with it. */
  lemma LowersTo(k: nat, toks: seq<Token>, labels: map<string, nat>, count: nat, i: Insn)
    requires Assemble(toks, labels, count) == Ok(i)
    ensures Lower(k, toks, labels, count) ==
            match MetaFor(i) case Refused(c) => Refused(c) case Ok(meta) => Ok((RowOf(k, i, meta), i))
  {
  }

  lemma NotAssembled(k: nat, toks: seq<Token>, labels: map<string, nat>, count: nat)
    requires Assemble(toks, labels, count).Refused?
    ensures Lower(k, toks, labels, count).Refused?
  {
  }

  lemma AssembledFrom(toks: seq<Token>, labels: map<string, nat>, count: nat, op: Op, mode: Mode)
    requires HasHead(toks, op, mode)
    ensures Assemble(toks, labels, count) ==
            if |toks| - 1 != |Format(op)| then Refused(WrongOperandCount)
            else Operands(Blank(op, mode), Format(op), toks[1..], labels, count)
  {
  }

  lemma ThreeRegisterOperands(toks: seq<Token>, labels: map<string, nat>, count: nat, op: Op, mode: Mode)
    requires HasHead(toks, op, mode) && op in {ADD, SUB, MUL, DIVU, MODU, AND, OR, XOR, CMP}
    ensures var r := Assemble(toks, labels, count);
            if |toks| == 5 && Reg(toks[1]).Some? && Reg(toks[2]).Some?
               && Reg(toks[3]).Some? && Slot(toks[4]).Some? then
              r == Ok(Insn(op, mode, Reg(toks[1]).value, Reg(toks[2]).value, Reg(toks[3]).value, Slot(toks[4]).value,
                0))
            else r.Refused?
  {
    AssembledFrom(toks, labels, count, op, mode);
    if |toks| == 5 {
      var t, u, v, w := toks[1], toks[2], toks[3], toks[4];
      assert toks[1..] == [t, u, v, w];
      assert Format(op) == [Rd, Ra, Rb, Cc];
      var i0 := Blank(op, mode);
      Operands4(i0, Rd, Ra, Rb, Cc, t, u, v, w, labels, count);
      RegIs(i0, t, labels, count);
      if Reg(t).Some? {
        var i1 := i0.(rd := Reg(t).value);
        RegIs(i1, u, labels, count);
        if Reg(u).Some? {
          var i2 := i1.(ra := Reg(u).value);
          RegIs(i2, v, labels, count);
          if Reg(v).Some? {
            var i3 := i2.(rb := Reg(v).value);
            OtherFieldsAre(i3, w, labels, count);
          }
        }
      }
    }
  }

  lemma ThreeRegisterShape(k: nat, i: Insn)
    requires i.op in {ADD, SUB, MUL, DIVU, MODU, AND, OR, XOR, CMP}
    ensures MetaFor(i) == Ok(if WithMode(i.op, i.mode) then WideMode(i.mode) else Wide)
    ensures forall meta :: RowOf(k, i, meta) == TheRow(k, i.op, Some(i.rd), i.cap, [i.ra, i.rb], NoArg, meta)
  {
    Joined(i.ra, i.rb);
    assert Format(i.op) == [Rd, Ra, Rb, Cc];
  }

  /** Three registers: the result, then the two operands in their order, then the slot. The mode is carried where the
      operation has one. */
  lemma ThreeRegisterRow(k: nat, toks: seq<Token>, labels: map<string, nat>, count: nat, op: Op, mode: Mode)
    requires HasHead(toks, op, mode) && op in {ADD, SUB, MUL, DIVU, MODU, AND, OR, XOR, CMP}
    ensures var r := Lower(k, toks, labels, count);
            if |toks| == 5 && Reg(toks[1]).Some? && Reg(toks[2]).Some?
               && Reg(toks[3]).Some? && Slot(toks[4]).Some? then
              r == Ok((TheRow(k, op, Some(Reg(toks[1]).value), Slot(toks[4]).value,
                [Reg(toks[2]).value, Reg(toks[3]).value],
                              NoArg, if WithMode(op, mode) then WideMode(mode) else Wide),
                       Insn(op, mode, Reg(toks[1]).value, Reg(toks[2]).value, Reg(toks[3]).value, Slot(toks[4]).value,
                         0)))
            else r.Refused?
  {
    ThreeRegisterOperands(toks, labels, count, op, mode);
    if Assemble(toks, labels, count).Ok? {
      var i := Assemble(toks, labels, count).value;
      LowersTo(k, toks, labels, count, i);
      ThreeRegisterShape(k, i);
    } else {
      NotAssembled(k, toks, labels, count);
    }
  }

  lemma TwoRegisterOperands(toks: seq<Token>, labels: map<string, nat>, count: nat, op: Op, mode: Mode)
    requires HasHead(toks, op, mode) && op in {MOV, NOT}
    ensures var r := Assemble(toks, labels, count);
            if |toks| == 4 && Reg(toks[1]).Some? && Reg(toks[2]).Some? && Slot(toks[3]).Some? then
              r == Ok(Insn(op, mode, Reg(toks[1]).value, Reg(toks[2]).value, 0, Slot(toks[3]).value, 0))
            else r.Refused?
  {
    AssembledFrom(toks, labels, count, op, mode);
    if |toks| == 4 {
      var t, u, v := toks[1], toks[2], toks[3];
      assert toks[1..] == [t, u, v];
      assert Format(op) == [Rd, Ra, Cc];
      var i0 := Blank(op, mode);
      Operands3(i0, Rd, Ra, Cc, t, u, v, labels, count);
      RegIs(i0, t, labels, count);
      if Reg(t).Some? {
        var i1 := i0.(rd := Reg(t).value);
        RegIs(i1, u, labels, count);
        if Reg(u).Some? {
          var i2 := i1.(ra := Reg(u).value);
          OtherFieldsAre(i2, v, labels, count);
        }
      }
    }
  }

  lemma TwoRegisterShape(k: nat, i: Insn)
    requires i.op in {MOV, NOT}
    ensures MetaFor(i) == Ok(if WithMode(i.op, i.mode) then WideMode(i.mode) else Wide)
    ensures forall meta :: RowOf(k, i, meta) == TheRow(k, i.op, Some(i.rd), i.cap, [i.ra], NoArg, meta)
  {
    Joined(i.ra, i.rb);
    assert Format(i.op) == [Rd, Ra, Cc];
  }

  /** Two registers, the result first, and the slot. */
  lemma TwoRegisterRow(k: nat, toks: seq<Token>, labels: map<string, nat>, count: nat, op: Op, mode: Mode)
    requires HasHead(toks, op, mode) && op in {MOV, NOT}
    ensures var r := Lower(k, toks, labels, count);
            if |toks| == 4 && Reg(toks[1]).Some? && Reg(toks[2]).Some? && Slot(toks[3]).Some? then
              r == Ok((TheRow(k, op, Some(Reg(toks[1]).value), Slot(toks[3]).value, [Reg(toks[2]).value],
                              NoArg, if WithMode(op, mode) then WideMode(mode) else Wide),
                       Insn(op, mode, Reg(toks[1]).value, Reg(toks[2]).value, 0, Slot(toks[3]).value, 0)))
            else r.Refused?
  {
    TwoRegisterOperands(toks, labels, count, op, mode);
    if Assemble(toks, labels, count).Ok? {
      var i := Assemble(toks, labels, count).value;
      LowersTo(k, toks, labels, count, i);
      TwoRegisterShape(k, i);
    } else {
      NotAssembled(k, toks, labels, count);
    }
  }

  lemma ShiftOperands(toks: seq<Token>, labels: map<string, nat>, count: nat, op: Op, mode: Mode)
    requires HasHead(toks, op, mode) && op in {SHL, SHR}
    ensures var r := Assemble(toks, labels, count);
            if |toks| == 5 && Reg(toks[1]).Some? && Reg(toks[2]).Some?
               && Num(toks[3]).Some? && Slot(toks[4]).Some? then
              r == Ok(Insn(op, mode, Reg(toks[1]).value, Reg(toks[2]).value, 0, Slot(toks[4]).value,
                Num(toks[3]).value))
            else r.Refused?
  {
    AssembledFrom(toks, labels, count, op, mode);
    if |toks| == 5 {
      var t, u, v, w := toks[1], toks[2], toks[3], toks[4];
      assert toks[1..] == [t, u, v, w];
      assert Format(op) == [Rd, Ra, Imm, Cc];
      var i0 := Blank(op, mode);
      Operands4(i0, Rd, Ra, Imm, Cc, t, u, v, w, labels, count);
      RegIs(i0, t, labels, count);
      if Reg(t).Some? {
        var i1 := i0.(rd := Reg(t).value);
        RegIs(i1, u, labels, count);
        if Reg(u).Some? {
          var i2 := i1.(ra := Reg(u).value);
          OtherFieldsAre(i2, v, labels, count);
          if Num(v).Some? {
            var i3 := i2.(imm := Num(v).value);
            OtherFieldsAre(i3, w, labels, count);
          }
        }
      }
    }
  }

  lemma ShiftShape(k: nat, i: Insn)
    requires i.op in {SHL, SHR}
    ensures MetaFor(i) == Ok(if WithMode(i.op, i.mode) then WideMode(i.mode) else Wide)
    ensures forall meta :: RowOf(k, i, meta) == TheRow(k, i.op, Some(i.rd), i.cap, [i.ra], U32(i.imm), meta)
  {
    Joined(i.ra, i.rb);
    assert Format(i.op) == [Rd, Ra, Imm, Cc];
  }

  /** A shift: the result, the operand, the distance and the slot. */
  lemma ShiftRow(k: nat, toks: seq<Token>, labels: map<string, nat>, count: nat, op: Op, mode: Mode)
    requires HasHead(toks, op, mode) && op in {SHL, SHR}
    ensures var r := Lower(k, toks, labels, count);
            if |toks| == 5 && Reg(toks[1]).Some? && Reg(toks[2]).Some?
               && Num(toks[3]).Some? && Slot(toks[4]).Some? then
              r == Ok((TheRow(k, op, Some(Reg(toks[1]).value), Slot(toks[4]).value, [Reg(toks[2]).value],
                              U32(Num(toks[3]).value), if WithMode(op, mode) then WideMode(mode) else Wide),
                       Insn(op, mode, Reg(toks[1]).value, Reg(toks[2]).value, 0, Slot(toks[4]).value,
                         Num(toks[3]).value)))
            else r.Refused?
  {
    ShiftOperands(toks, labels, count, op, mode);
    if Assemble(toks, labels, count).Ok? {
      var i := Assemble(toks, labels, count).value;
      LowersTo(k, toks, labels, count, i);
      ShiftShape(k, i);
    } else {
      NotAssembled(k, toks, labels, count);
    }
  }

  lemma ConstantOperands(toks: seq<Token>, labels: map<string, nat>, count: nat, op: Op, mode: Mode)
    requires HasHead(toks, op, mode) && op == MOVI
    ensures var r := Assemble(toks, labels, count);
            if |toks| == 4 && Reg(toks[1]).Some? && Num(toks[2]).Some? && Slot(toks[3]).Some? then
              r == Ok(Insn(op, mode, Reg(toks[1]).value, 0, 0, Slot(toks[3]).value, Num(toks[2]).value))
            else r.Refused?
  {
    AssembledFrom(toks, labels, count, op, mode);
    if |toks| == 4 {
      var t, u, v := toks[1], toks[2], toks[3];
      assert toks[1..] == [t, u, v];
      assert Format(op) == [Rd, Imm, Cc];
      var i0 := Blank(op, mode);
      Operands3(i0, Rd, Imm, Cc, t, u, v, labels, count);
      RegIs(i0, t, labels, count);
      if Reg(t).Some? {
        var i1 := i0.(rd := Reg(t).value);
        OtherFieldsAre(i1, u, labels, count);
        if Num(u).Some? {
          var i2 := i1.(imm := Num(u).value);
          OtherFieldsAre(i2, v, labels, count);
        }
      }
    }
  }

  lemma ConstantShape(k: nat, i: Insn)
    requires i.op == MOVI
    ensures MetaFor(i) == Ok(if WithMode(i.op, i.mode) then WideMode(i.mode) else Wide)
    ensures forall meta :: RowOf(k, i, meta) == TheRow(k, i.op, Some(i.rd), i.cap, [], U64(i.imm), meta)
  {
    Joined(i.ra, i.rb);
    assert Format(i.op) == [Rd, Imm, Cc];
  }

  /** A constant load: the register, the literal and the slot. */
  lemma ConstantRow(k: nat, toks: seq<Token>, labels: map<string, nat>, count: nat, op: Op, mode: Mode)
    requires HasHead(toks, op, mode) && op == MOVI
    ensures var r := Lower(k, toks, labels, count);
            if |toks| == 4 && Reg(toks[1]).Some? && Num(toks[2]).Some? && Slot(toks[3]).Some? then
              r == Ok((TheRow(k, op, Some(Reg(toks[1]).value), Slot(toks[3]).value, [],
                              U64(Num(toks[2]).value), if WithMode(op, mode) then WideMode(mode) else Wide),
                       Insn(op, mode, Reg(toks[1]).value, 0, 0, Slot(toks[3]).value, Num(toks[2]).value)))
            else r.Refused?
  {
    ConstantOperands(toks, labels, count, op, mode);
    if Assemble(toks, labels, count).Ok? {
      var i := Assemble(toks, labels, count).value;
      LowersTo(k, toks, labels, count, i);
      ConstantShape(k, i);
    } else {
      NotAssembled(k, toks, labels, count);
    }
  }

  lemma LoadOperands(toks: seq<Token>, labels: map<string, nat>, count: nat, op: Op, mode: Mode)
    requires HasHead(toks, op, mode) && op == LOAD
    ensures var r := Assemble(toks, labels, count);
            if |toks| == 4 && Reg(toks[1]).Some? && Num(toks[2]).Some? && Slot(toks[3]).Some? then
              r == Ok(Insn(op, mode, Reg(toks[1]).value, 0, 0, Slot(toks[3]).value, Num(toks[2]).value))
            else r.Refused?
  {
    AssembledFrom(toks, labels, count, op, mode);
    if |toks| == 4 {
      var t, u, v := toks[1], toks[2], toks[3];
      assert toks[1..] == [t, u, v];
      assert Format(op) == [Rd, Imm, Cc];
      var i0 := Blank(op, mode);
      Operands3(i0, Rd, Imm, Cc, t, u, v, labels, count);
      RegIs(i0, t, labels, count);
      if Reg(t).Some? {
        var i1 := i0.(rd := Reg(t).value);
        OtherFieldsAre(i1, u, labels, count);
        if Num(u).Some? {
          var i2 := i1.(imm := Num(u).value);
          OtherFieldsAre(i2, v, labels, count);
        }
      }
    }
  }

  lemma LoadShape(k: nat, i: Insn)
    requires i.op == LOAD
    ensures MetaFor(i) == if i.mode == WRAP then Ok(Scalar64) else Refused(ModeOnMemory)
    ensures forall meta :: RowOf(k, i, meta) == TheRow(k, i.op, Some(i.rd), i.cap, [], Mem(i.imm), meta)
  {
    Joined(i.ra, i.rb);
    assert Format(i.op) == [Rd, Imm, Cc];
  }

  /** A load: the register, the address and the slot, and no mode. */
  lemma LoadRow(k: nat, toks: seq<Token>, labels: map<string, nat>, count: nat, op: Op, mode: Mode)
    requires HasHead(toks, op, mode) && op == LOAD
    ensures var r := Lower(k, toks, labels, count);
            if |toks| == 4 && Reg(toks[1]).Some? && Num(toks[2]).Some? && Slot(toks[3]).Some? && mode == WRAP then
              r == Ok((TheRow(k, op, Some(Reg(toks[1]).value), Slot(toks[3]).value, [],
                              Mem(Num(toks[2]).value), Scalar64),
                       Insn(op, mode, Reg(toks[1]).value, 0, 0, Slot(toks[3]).value, Num(toks[2]).value)))
            else r.Refused?
  {
    LoadOperands(toks, labels, count, op, mode);
    if Assemble(toks, labels, count).Ok? {
      var i := Assemble(toks, labels, count).value;
      LowersTo(k, toks, labels, count, i);
      LoadShape(k, i);
    } else {
      NotAssembled(k, toks, labels, count);
    }
  }

  lemma StoreOperands(toks: seq<Token>, labels: map<string, nat>, count: nat, op: Op, mode: Mode)
    requires HasHead(toks, op, mode) && op == STORE
    ensures var r := Assemble(toks, labels, count);
            if |toks| == 4 && Reg(toks[1]).Some? && Num(toks[2]).Some? && Slot(toks[3]).Some? then
              r == Ok(Insn(op, mode, 0, Reg(toks[1]).value, 0, Slot(toks[3]).value, Num(toks[2]).value))
            else r.Refused?
  {
    AssembledFrom(toks, labels, count, op, mode);
    if |toks| == 4 {
      var t, u, v := toks[1], toks[2], toks[3];
      assert toks[1..] == [t, u, v];
      assert Format(op) == [Ra, Imm, Cc];
      var i0 := Blank(op, mode);
      Operands3(i0, Ra, Imm, Cc, t, u, v, labels, count);
      RegIs(i0, t, labels, count);
      if Reg(t).Some? {
        var i1 := i0.(ra := Reg(t).value);
        OtherFieldsAre(i1, u, labels, count);
        if Num(u).Some? {
          var i2 := i1.(imm := Num(u).value);
          OtherFieldsAre(i2, v, labels, count);
        }
      }
    }
  }

  lemma StoreShape(k: nat, i: Insn)
    requires i.op == STORE
    ensures MetaFor(i) == if i.mode == WRAP then Ok(Scalar64) else Refused(ModeOnMemory)
    ensures forall meta :: RowOf(k, i, meta) == TheRow(k, i.op, None, i.cap, [i.ra], Mem(i.imm), meta)
  {
    Joined(i.ra, i.rb);
    assert Format(i.op) == [Ra, Imm, Cc];
  }

  /** A store: the register, the address and the slot, and no mode. */
  lemma StoreRow(k: nat, toks: seq<Token>, labels: map<string, nat>, count: nat, op: Op, mode: Mode)
    requires HasHead(toks, op, mode) && op == STORE
    ensures var r := Lower(k, toks, labels, count);
            if |toks| == 4 && Reg(toks[1]).Some? && Num(toks[2]).Some? && Slot(toks[3]).Some? && mode == WRAP then
              r == Ok((TheRow(k, op, None, Slot(toks[3]).value, [Reg(toks[1]).value],
                              Mem(Num(toks[2]).value), Scalar64),
                       Insn(op, mode, 0, Reg(toks[1]).value, 0, Slot(toks[3]).value, Num(toks[2]).value)))
            else r.Refused?
  {
    StoreOperands(toks, labels, count, op, mode);
    if Assemble(toks, labels, count).Ok? {
      var i := Assemble(toks, labels, count).value;
      LowersTo(k, toks, labels, count, i);
      StoreShape(k, i);
    } else {
      NotAssembled(k, toks, labels, count);
    }
  }

  lemma PushOperands(toks: seq<Token>, labels: map<string, nat>, count: nat, op: Op, mode: Mode)
    requires HasHead(toks, op, mode) && op == PUSH
    ensures var r := Assemble(toks, labels, count);
            if |toks| == 3 && Reg(toks[1]).Some? && Slot(toks[2]).Some? then
              r == Ok(Insn(op, mode, 0, Reg(toks[1]).value, 0, Slot(toks[2]).value, 0))
            else r.Refused?
  {
    AssembledFrom(toks, labels, count, op, mode);
    if |toks| == 3 {
      var t, u := toks[1], toks[2];
      assert toks[1..] == [t, u];
      assert Format(op) == [Ra, Cc];
      var i0 := Blank(op, mode);
      Operands2(i0, Ra, Cc, t, u, labels, count);
      RegIs(i0, t, labels, count);
      if Reg(t).Some? {
        var i1 := i0.(ra := Reg(t).value);
        OtherFieldsAre(i1, u, labels, count);
      }
    }
  }

  lemma PushShape(k: nat, i: Insn)
    requires i.op == PUSH
    ensures MetaFor(i) == Ok(if WithMode(i.op, i.mode) then WideMode(i.mode) else Wide)
    ensures forall meta :: RowOf(k, i, meta) == TheRow(k, i.op, None, i.cap, [i.ra], NoArg, meta)
  {
    Joined(i.ra, i.rb);
    assert Format(i.op) == [Ra, Cc];
  }

  /** A push: the register and the slot. */
  lemma PushRow(k: nat, toks: seq<Token>, labels: map<string, nat>, count: nat, op: Op, mode: Mode)
    requires HasHead(toks, op, mode) && op == PUSH
    ensures var r := Lower(k, toks, labels, count);
            if |toks| == 3 && Reg(toks[1]).Some? && Slot(toks[2]).Some? then
              r == Ok((TheRow(k, op, None, Slot(toks[2]).value, [Reg(toks[1]).value],
                              NoArg, if WithMode(op, mode) then WideMode(mode) else Wide),
                       Insn(op, mode, 0, Reg(toks[1]).value, 0, Slot(toks[2]).value, 0)))
            else r.Refused?
  {
    PushOperands(toks, labels, count, op, mode);
    if Assemble(toks, labels, count).Ok? {
      var i := Assemble(toks, labels, count).value;
      LowersTo(k, toks, labels, count, i);
      PushShape(k, i);
    } else {
      NotAssembled(k, toks, labels, count);
    }
  }

  lemma PopOperands(toks: seq<Token>, labels: map<string, nat>, count: nat, op: Op, mode: Mode)
    requires HasHead(toks, op, mode) && op == POP
    ensures var r := Assemble(toks, labels, count);
            if |toks| == 3 && Reg(toks[1]).Some? && Slot(toks[2]).Some? then
              r == Ok(Insn(op, mode, Reg(toks[1]).value, 0, 0, Slot(toks[2]).value, 0))
            else r.Refused?
  {
    AssembledFrom(toks, labels, count, op, mode);
    if |toks| == 3 {
      var t, u := toks[1], toks[2];
      assert toks[1..] == [t, u];
      assert Format(op) == [Rd, Cc];
      var i0 := Blank(op, mode);
      Operands2(i0, Rd, Cc, t, u, labels, count);
      RegIs(i0, t, labels, count);
      if Reg(t).Some? {
        var i1 := i0.(rd := Reg(t).value);
        OtherFieldsAre(i1, u, labels, count);
      }
    }
  }

  lemma PopShape(k: nat, i: Insn)
    requires i.op == POP
    ensures MetaFor(i) == Ok(if WithMode(i.op, i.mode) then WideMode(i.mode) else Wide)
    ensures forall meta :: RowOf(k, i, meta) == TheRow(k, i.op, Some(i.rd), i.cap, [], NoArg, meta)
  {
    Joined(i.ra, i.rb);
    assert Format(i.op) == [Rd, Cc];
  }

  /** A pop: the register and the slot. */
  lemma PopRow(k: nat, toks: seq<Token>, labels: map<string, nat>, count: nat, op: Op, mode: Mode)
    requires HasHead(toks, op, mode) && op == POP
    ensures var r := Lower(k, toks, labels, count);
            if |toks| == 3 && Reg(toks[1]).Some? && Slot(toks[2]).Some? then
              r == Ok((TheRow(k, op, Some(Reg(toks[1]).value), Slot(toks[2]).value, [],
                              NoArg, if WithMode(op, mode) then WideMode(mode) else Wide),
                       Insn(op, mode, Reg(toks[1]).value, 0, 0, Slot(toks[2]).value, 0)))
            else r.Refused?
  {
    PopOperands(toks, labels, count, op, mode);
    if Assemble(toks, labels, count).Ok? {
      var i := Assemble(toks, labels, count).value;
      LowersTo(k, toks, labels, count, i);
      PopShape(k, i);
    } else {
      NotAssembled(k, toks, labels, count);
    }
  }

  lemma CallOperands(toks: seq<Token>, labels: map<string, nat>, count: nat, op: Op, mode: Mode)
    requires HasHead(toks, op, mode) && op == Op.SVC
    ensures var r := Assemble(toks, labels, count);
            if |toks| == 6 && Service(toks[1]).Some? && Reg(toks[2]).Some? && Reg(toks[3]).Some?
               && Reg(toks[4]).Some? && Slot(toks[5]).Some? then
              r == Ok(Insn(op, mode, Reg(toks[2]).value, Reg(toks[3]).value, Reg(toks[4]).value, Slot(toks[5]).value,
                Service(toks[1]).value))
            else r.Refused?
  {
    AssembledFrom(toks, labels, count, op, mode);
    if |toks| == 6 {
      var t, u, v, w, x := toks[1], toks[2], toks[3], toks[4], toks[5];
      assert toks[1..] == [t, u, v, w, x];
      assert Format(op) == [Svc, Rd, Ra, Rb, Cc];
      var i0 := Blank(op, mode);
      Operands5(i0, Svc, Rd, Ra, Rb, Cc, t, u, v, w, x, labels, count);
      OtherFieldsAre(i0, t, labels, count);
      if Service(t).Some? {
        var i1 := i0.(imm := Service(t).value);
        RegIs(i1, u, labels, count);
        if Reg(u).Some? {
          var i2 := i1.(rd := Reg(u).value);
          RegIs(i2, v, labels, count);
          if Reg(v).Some? {
            var i3 := i2.(ra := Reg(v).value);
            RegIs(i3, w, labels, count);
            if Reg(w).Some? {
              var i4 := i3.(rb := Reg(w).value);
              OtherFieldsAre(i4, x, labels, count);
            }
          }
        }
      }
    }
  }

  lemma CallShape(k: nat, i: Insn)
    requires i.op == Op.SVC
    ensures MetaFor(i) == Ok(if WithMode(i.op, i.mode) then WideMode(i.mode) else Wide)
    ensures forall meta ::
              RowOf(k, i, meta) == TheRow(k, i.op, Some(i.rd), i.cap, [i.ra, i.rb], ServiceArg(i.imm), meta)
  {
    Joined(i.ra, i.rb);
    assert Format(i.op) == [Svc, Rd, Ra, Rb, Cc];
  }

  /** A service call: the service, the result, the two operands and the slot. */
  lemma CallRow(k: nat, toks: seq<Token>, labels: map<string, nat>, count: nat, op: Op, mode: Mode)
    requires HasHead(toks, op, mode) && op == Op.SVC
    ensures var r := Lower(k, toks, labels, count);
            if |toks| == 6 && Service(toks[1]).Some? && Reg(toks[2]).Some? && Reg(toks[3]).Some?
               && Reg(toks[4]).Some? && Slot(toks[5]).Some? then
              r == Ok((TheRow(k, op, Some(Reg(toks[2]).value), Slot(toks[5]).value,
                [Reg(toks[3]).value, Reg(toks[4]).value],
                              ServiceArg(Service(toks[1]).value), if WithMode(op, mode) then WideMode(mode) else Wide),
                       Insn(op, mode, Reg(toks[2]).value, Reg(toks[3]).value, Reg(toks[4]).value, Slot(toks[5]).value,
                         Service(toks[1]).value)))
            else r.Refused?
  {
    CallOperands(toks, labels, count, op, mode);
    if Assemble(toks, labels, count).Ok? {
      var i := Assemble(toks, labels, count).value;
      LowersTo(k, toks, labels, count, i);
      CallShape(k, i);
    } else {
      NotAssembled(k, toks, labels, count);
    }
  }

  lemma BranchOperands(toks: seq<Token>, labels: map<string, nat>, count: nat, op: Op, mode: Mode)
    requires HasHead(toks, op, mode) && op in {JMP, JZ, JNZ}
    ensures var r := Assemble(toks, labels, count);
            if |toks| == 3 && Goal(toks[1], labels, count).Some? && Slot(toks[2]).Some? then
              r == Ok(Insn(op, mode, 0, 0, 0, Slot(toks[2]).value, Goal(toks[1], labels, count).value))
            else r.Refused?
  {
    AssembledFrom(toks, labels, count, op, mode);
    if |toks| == 3 {
      var t, u := toks[1], toks[2];
      assert toks[1..] == [t, u];
      assert Format(op) == [Target, Cc];
      var i0 := Blank(op, mode);
      Operands2(i0, Target, Cc, t, u, labels, count);
      OtherFieldsAre(i0, t, labels, count);
      if Goal(t, labels, count).Some? {
        var i1 := i0.(imm := Goal(t, labels, count).value);
        OtherFieldsAre(i1, u, labels, count);
      }
    }
  }

  lemma BranchShape(k: nat, i: Insn)
    requires i.op in {JMP, JZ, JNZ}
    ensures MetaFor(i) == if i.mode == WRAP then Ok(NoMeta) else Refused(ModeOnControl)
    ensures forall meta :: RowOf(k, i, meta) == TheRow(k, i.op, None, i.cap, [], ToRow(RowId('T', i.imm + 1)), meta)
  {
    Joined(i.ra, i.rb);
    assert Format(i.op) == [Target, Cc];
  }

  /** A branch: the row it goes to, named by its number, and the slot, and no mode. */
  lemma BranchRow(k: nat, toks: seq<Token>, labels: map<string, nat>, count: nat, op: Op, mode: Mode)
    requires HasHead(toks, op, mode) && op in {JMP, JZ, JNZ}
    ensures var r := Lower(k, toks, labels, count);
            if |toks| == 3 && Goal(toks[1], labels, count).Some? && Slot(toks[2]).Some? && mode == WRAP then
              r == Ok((TheRow(k, op, None, Slot(toks[2]).value, [],
                              ToRow(RowId('T', Goal(toks[1], labels, count).value + 1)), NoMeta),
                       Insn(op, mode, 0, 0, 0, Slot(toks[2]).value, Goal(toks[1], labels, count).value)))
            else r.Refused?
  {
    BranchOperands(toks, labels, count, op, mode);
    if Assemble(toks, labels, count).Ok? {
      var i := Assemble(toks, labels, count).value;
      LowersTo(k, toks, labels, count, i);
      BranchShape(k, i);
    } else {
      NotAssembled(k, toks, labels, count);
    }
  }

  lemma BareOperands(toks: seq<Token>, labels: map<string, nat>, count: nat, op: Op, mode: Mode)
    requires HasHead(toks, op, mode) && op in {NOP, HALT}
    ensures var r := Assemble(toks, labels, count);
            if |toks| == 2 && Slot(toks[1]).Some? then
              r == Ok(Insn(op, mode, 0, 0, 0, Slot(toks[1]).value, 0))
            else r.Refused?
  {
    AssembledFrom(toks, labels, count, op, mode);
    if |toks| == 2 {
      var t := toks[1];
      assert toks[1..] == [t];
      assert Format(op) == [Cc];
      var i0 := Blank(op, mode);
      Operands1(i0, Cc, t, labels, count);
      OtherFieldsAre(i0, t, labels, count);
    }
  }

  lemma BareShape(k: nat, i: Insn)
    requires i.op in {NOP, HALT}
    ensures MetaFor(i) == if i.mode == WRAP then Ok(NoMeta) else Refused(ModeOnControl)
    ensures forall meta :: RowOf(k, i, meta) == TheRow(k, i.op, None, i.cap, [], NoArg, meta)
  {
    Joined(i.ra, i.rb);
    assert Format(i.op) == [Cc];
  }

  /** Nothing but the slot, and no mode. */
  lemma BareRow(k: nat, toks: seq<Token>, labels: map<string, nat>, count: nat, op: Op, mode: Mode)
    requires HasHead(toks, op, mode) && op in {NOP, HALT}
    ensures var r := Lower(k, toks, labels, count);
            if |toks| == 2 && Slot(toks[1]).Some? && mode == WRAP then
              r == Ok((TheRow(k, op, None, Slot(toks[1]).value, [],
                              NoArg, NoMeta),
                       Insn(op, mode, 0, 0, 0, Slot(toks[1]).value, 0)))
            else r.Refused?
  {
    BareOperands(toks, labels, count, op, mode);
    if Assemble(toks, labels, count).Ok? {
      var i := Assemble(toks, labels, count).value;
      LowersTo(k, toks, labels, count, i);
      BareShape(k, i);
    } else {
      NotAssembled(k, toks, labels, count);
    }
  }

  /** A line whose first token names no operation and mode is refused. */
  lemma HeadlessIsRefused(k: nat, toks: seq<Token>, labels: map<string, nat>, count: nat)
    requires forall op, mode :: !HasHead(toks, op, mode)
    ensures Lower(k, toks, labels, count).Refused?
  {
    if toks != [] && toks[0].cls.Head? && toks[0].cls.op.Some? && toks[0].cls.mode.Some? {
      assert HasHead(toks, toks[0].cls.op.value, toks[0].cls.mode.value);
    }
  }

  // ----- Which lines a program may have, and what its labels name -----

  /** How many instruction lines there are. */
  function Count(lines: seq<Line>): nat {
    if lines == [] then 0 else Count(lines[..|lines| - 1]) + if lines[|lines| - 1].Instruction? then 1 else 0
  }

  lemma {:induction false} CodeIsCounted(lines: seq<Line>)
    ensures |Code(lines)| == Count(lines)
    decreases |lines|
  {
    if lines != [] {
      CodeIsCounted(lines[..|lines| - 1]);
    }
  }

  /** An instruction line is carried as the one whose number is that of the instruction lines before it, with its own
      line number. */
  lemma {:induction false} CodeAt(lines: seq<Line>, j: nat)
    requires j < |lines| && lines[j].Instruction?
    ensures Count(lines[..j]) < |Code(lines)| && Code(lines)[Count(lines[..j])] == Source(j + 1, lines[j].toks)
    decreases |lines|
  {
    var before := lines[..|lines| - 1];
    CodeIsCounted(before);
    if j < |before| {
      CodeAt(before, j);
      assert before[..j] == lines[..j];
    }
  }

  /** The label is on line j, and on no line before n after that. */
  predicate LastLabel(lines: seq<Line>, n: nat, name: string, j: nat)
    requires n <= |lines|
  {
    j < n && lines[j] == Label(name) && forall i :: j < i < n ==> lines[i] != Label(name)
  }

  lemma {:induction false} LabelsAre(lines: seq<Line>, n: nat, name: string)
    requires n <= |lines|
    ensures name in Labels(lines[..n]) <==> exists j :: 0 <= j < n && lines[j] == Label(name)
    ensures forall j :: 0 <= j < n && LastLabel(lines, n, name, j) ==>
              name in Labels(lines[..n]) && Labels(lines[..n])[name] == Count(lines[..j])
  {
    if n > 0 {
      var m := n - 1;
      LabelsAre(lines, m, name);
      assert lines[..n][..m] == lines[..m];
      CodeIsCounted(lines[..m]);
      forall j | 0 <= j < n && LastLabel(lines, n, name, j)
        ensures name in Labels(lines[..n]) && Labels(lines[..n])[name] == Count(lines[..j])
      {
        if j < m {
          assert lines[m] != Label(name);
          assert LastLabel(lines, m, name, j);
        }
      }
    }
  }

  /** The lines as the translator insists on them: literals are unsigned, capabilities known, there is no data and no
      unknown directive, and every label has a name of its own. */
  predicate LineInOrder(lines: seq<Line>, j: nat)
    requires j < |lines|
  {
    match lines[j]
    case ImageVersion(t) => Num(t).Some?
    case RequestCaps(caps) => forall c :: c in caps ==> c.Some?
    case Data => false
    case UnknownDirective => false
    case Label(name) => name != "" && forall i :: 0 <= i < j ==> lines[i] != Label(name)
    case _ => true
  }

  lemma LineIsInOrder(lines: seq<Line>, j: nat)
    requires j < |lines|
    ensures LineFault(lines, j) == None <==> LineInOrder(lines, j)
  {
    if lines[j].Label? {
      LabelsAre(lines, j, lines[j].name);
    } else if lines[j].RequestCaps? {
      assert None in lines[j].caps <==> !forall c :: c in lines[j].caps ==> c.Some?;
    }
  }

  lemma {:induction false} CapsAreDeclared(lines: seq<Line>)
    ensures DeclaredCaps(lines).Some? <==> exists j :: 0 <= j < |lines| && lines[j].RequestCaps?
    decreases |lines|
  {
    if lines != [] {
      var before := lines[..|lines| - 1];
      CapsAreDeclared(before);
      if j :| 0 <= j < |before| && before[j].RequestCaps? {
        assert lines[j].RequestCaps?;
      }
      if j :| 0 <= j < |lines| && lines[j].RequestCaps? && j < |before| {
        assert before[j].RequestCaps?;
      }
    }
  }

  /** A program is accepted exactly when its lines are in order, one of them asks for capabilities and one is an
      instruction, every instruction can be carried, and every row can be reached. */
  lemma AcceptableExactly(lines: seq<Line>)
    ensures Acceptable(lines) <==>
            && (forall j :: 0 <= j < |lines| ==> LineInOrder(lines, j))
            && (exists j :: 0 <= j < |lines| && lines[j].RequestCaps?)
            && Count(lines) > 0
            && RowsTranslate(lines)
            && forall k :: 0 <= k < |Code(lines)| ==> Reachable(Flow(Insns(lines)), k)
  {
    forall j | 0 <= j < |lines|
      ensures LineFault(lines, j) == None <==> LineInOrder(lines, j)
    {
      LineIsInOrder(lines, j);
    }
    CapsAreDeclared(lines);
    CodeIsCounted(lines);
  }

  /** In an accepted program a label names the instruction that comes next after its line. */
  lemma LabelNamesNext(lines: seq<Line>, j: nat, name: string)
    requires NoLineFault(lines) && j < |lines| && lines[j] == Label(name)
    ensures name in Labels(lines) && Labels(lines)[name] == Count(lines[..j])
  {
    forall i | j < i < |lines|
      ensures lines[i] != Label(name)
    {
      LineIsInOrder(lines, i);
      assert LineInOrder(lines, i);
    }
    assert LastLabel(lines, |lines|, name, j);
    LabelsAre(lines, |lines|, name);
    assert lines[..|lines|] == lines;
  }

  // ----- Which capabilities are declared -----

  predicate Computes(op: Op) {
    op in {ADD, SUB, MUL, DIVU, MODU, AND, OR, XOR, NOT, SHL, SHR, CMP}
  }

  /** An instruction that makes its unit ask for the capability. */
  predicate AsksFor(i: Insn, c: Cap) {
    match c
    case CONTROL => i.op in {NOP, MOVI, MOV, JMP, JZ, JNZ, HALT, Op.SVC}
    case ARITH => Computes(i.op)
    case MEMORY => i.op in {LOAD, STORE}
    case STACK => i.op in {PUSH, POP}
    case SERVICE => i.op == Op.SVC && (i.imm == 4 || i.imm == 5)
    case DIAG => i.op == Op.SVC && i.imm == 6
    case STATE => i.op == Op.SVC && (i.imm == 7 || i.imm == 8)
    case UPDATE => false
  }

  lemma NeedsIsAsking(i: Insn, c: Cap)
    ensures c in Needs(i.op, i.imm) <==> AsksFor(i, c)
  {
  }

  /** The emitted unit declares a capability exactly when one of its instructions asks for it. */
  lemma DeclaredIffAsked(lines: seq<Line>, c: Cap)
    requires RowsTranslate(lines)
    ensures c in UnitOf(lines).caps <==> exists k :: 0 <= k < |Insns(lines)| && AsksFor(Insns(lines)[k], c)
  {
    CapsAreExact(lines, c);
    forall k | 0 <= k < |Insns(lines)|
      ensures c in Needs(Insns(lines)[k].op, Insns(lines)[k].imm) <==> AsksFor(Insns(lines)[k], c)
    {
      NeedsIsAsking(Insns(lines)[k], c);
    }
  }

  function Rank(c: Cap): nat {
    match c
    case CONTROL => 0 case ARITH => 1 case MEMORY => 2 case STACK => 3
    case SERVICE => 4 case STATE => 5 case UPDATE => 6 case DIAG => 7
  }

  predicate Ranked(caps: seq<Cap>) {
    forall i, j :: 0 <= i < j < |caps| ==> Rank(caps[i]) < Rank(caps[j])
  }

  lemma {:induction false} FilterIsRanked(order: seq<Cap>, need: set<Cap>)
    requires Ranked(order)
    ensures Ranked(InOrder(order, need)) && forall c :: c in InOrder(order, need) ==> c in order
    decreases |order|
  {
    if order != [] {
      FilterIsRanked(order[1..], need);
      assert order == [order[0]] + order[1..];
      var rest := order[1..];
      forall c | c in rest
        ensures Rank(order[0]) < Rank(c)
      {
        var i :| 0 <= i < |rest| && rest[i] == c;
        assert order[i + 1] == c;
      }
      var kept := InOrder(rest, need);
      assert forall i :: 0 <= i < |kept| ==> kept[i] in rest;
      assert order[0] in need ==> InOrder(order, need) == [order[0]] + kept;
      assert order[0] !in need ==> InOrder(order, need) == kept;
    }
  }

  /** And it declares them in one fixed order. */
  lemma CapsAreRanked(lines: seq<Line>)
    requires RowsTranslate(lines)
    ensures Ranked(UnitOf(lines).caps)
  {
    FilterIsRanked(CAP_ORDER, Needed(Insns(lines)));
  }

  // ----- What is reported beside the unit -----

  /** An instruction whose mode can neither be carried nor matters. */
  predicate LosesMode(i: Insn) {
    i.mode != WRAP && i.op in {MOVI, MOV, NOT, AND, OR, XOR, CMP, PUSH, POP, Op.SVC}
  }

  lemma LosesModeIs(i: Insn)
    ensures DropsMode(i) <==> LosesMode(i)
  {
    match i.op {
      case NOP => case MOVI => case MOV => case JMP => case JZ => case JNZ => case HALT => case ADD => case SUB =>
      case MUL => case DIVU => case MODU => case AND => case OR => case XOR => case NOT => case SHL => case SHR =>
      case CMP => case LOAD => case STORE => case PUSH => case POP => case SVC =>
    }
  }

  /** The modes reported as dropped are those of exactly these instructions, each by its row, operation, mode and
      line. */
  lemma {:induction false} DroppedExactly(code: seq<Source>, insns: seq<Insn>, x: DroppedMode)
    requires |code| == |insns|
    ensures x in Dropped(code, insns) <==>
            exists k :: 0 <= k < |insns| && LosesMode(insns[k])
                        && x == DroppedMode(RowId('T', k + 1), insns[k].op, insns[k].mode, code[k].line)
    decreases |insns|
  {
    if insns != [] {
      var n := |insns| - 1;
      DroppedExactly(code[..n], insns[..n], x);
      LosesModeIs(insns[n]);
      if k :| 0 <= k < n && LosesMode(insns[..n][k])
              && x == DroppedMode(RowId('T', k + 1), insns[..n][k].op, insns[..n][k].mode, code[..n][k].line) {
        assert LosesMode(insns[k]);
      }
      if k :| 0 <= k < |insns| && LosesMode(insns[k])
              && x == DroppedMode(RowId('T', k + 1), insns[k].op, insns[k].mode, code[k].line) && k < n {
        assert LosesMode(insns[..n][k]) && code[..n][k] == code[k];
      }
    }
  }

  /** The declared capabilities are those of the last line that asks for any. */
  lemma {:induction false} LastRequestCounts(lines: seq<Line>, j: nat)
    requires j < |lines| && lines[j].RequestCaps? && forall i :: j < i < |lines| ==> !lines[i].RequestCaps?
    ensures DeclaredCaps(lines) == Some(lines[j].caps)
    decreases |lines|
  {
    if j < |lines| - 1 {
      LastRequestCounts(lines[..|lines| - 1], j);
    }
  }
}
