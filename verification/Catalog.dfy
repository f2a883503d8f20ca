/** The operation catalog and the rows of a program, with the object keys a row reads and writes. */
module Catalog {
  import opened Common
  import opened Text

  // ----- Operations -----

  datatype Op =
    | PREP0 | PREP1 | PREP_PLUS | PREP_MINUS | PREP_BASIS | PREP_STATE | RESET
    | I | X | Y | Z | H | S | SDG | T | TDG | RX | RY | RZ | PHASE | U
    | CX | CNOT | CY | CZ | CH | SWAP | ISWAP | CSWAP | CCX | TOFFOLI | CU | MCU
    | MEASURE | MEASURE_Z | MEASURE_X | MEASURE_Y | MEASURE_BASIS | POVM | SAMPLE | EXPECT | VARIANCE
    | TENSOR | PARTIAL_TRACE | REDUCE | PERMUTE_QUBITS | PARTITION | MERGE | ENTANGLE
    | KRON | COMPOSE | ADJOINT | EXP_OPERATOR | COMMUTATOR | ANTICOMMUTATOR | PROJECT | SPECTRAL | DIAGONALIZE
    | PAULI_DECOMPOSE
    | EVOLVE | HAMILTONIAN | UNITARY_EVOLVE | TROTTER | SUZUKI | ADIABATIC | PULSE
    | DEPOLARIZE | DEPHASE | BIT_FLIP | PHASE_FLIP | AMPLITUDE_DAMP | PHASE_DAMP | PAULI_CHANNEL | KRAUS_CHANNEL
    | READOUT_ERROR | LEAKAGE_MODEL | CROSSTALK_MODEL
    | ENCODE | SYNDROME | DETECT | CORRECT | DECODE | STABILIZER | LOGICAL
    | CLASSICAL_IF | CLASSICAL_SWITCH | REPEAT | UNTIL | WHILE | SHOT_LOOP | PARAM_BIND | FEEDBACK
    | ENTANGLE_LINK | EPR_RESERVE | EPR_RELEASE | TELEPORT | REMOTE_CONTROL | REMOTE_CNOT | REMOTE_MEASURE
    | CLASSICAL_FEEDBACK | ENTANGLEMENT_SWAP | PURIFY | HERALD | SYNC_QCLOCK | QCHANNEL_SEND | QCHANNEL_RECEIVE
    | BROADCAST | SCATTER | GATHER | ALLGATHER | ALLREDUCE | SCAN | ALLTOALL
    | REGION_BEGIN | REGION_END | BARRIER | FENCE | EPOCH | SPAWN | AWAIT | CHANNEL_SEND | CHANNEL_RECV
    | DECLARE_NODE | DECLARE_DOMAIN | DECLARE_LINK | DECLARE_TOPOLOGY | DECLARE_FEDERATION
    | CLAIM | ASSERT_INVARIANT | EMIT_LEDGER | NOTE
    | UnknownOp(text: string)

  predicate IsReinit(op: Op) {
    op.PREP0? || op.PREP1? || op.PREP_PLUS? || op.PREP_MINUS? || op.PREP_BASIS? || op.PREP_STATE? || op.RESET?
  }

  /** The number of qubits a gate acts on; CU and MCU have none on record. */
  function Arity(op: Op): Option<nat> {
    match op
    case I | X | Y | Z | H | S | SDG | T | TDG | RX | RY | RZ | PHASE | U => Some(1)
    case CX | CNOT | CY | CZ | CH | SWAP | ISWAP => Some(2)
    case CSWAP | CCX | TOFFOLI => Some(3)
    case _ => None
  }

  predicate IsParametric(op: Op) {
    op.RX? || op.RY? || op.RZ? || op.PHASE? || op.U?
  }

  predicate IsControlled(op: Op) {
    op.CX? || op.CNOT? || op.CY? || op.CZ? || op.CH? || op.CSWAP? || op.CCX? || op.TOFFOLI? || op.CU? || op.MCU?
  }

  predicate IsNoise(op: Op) {
    match op
    case DEPOLARIZE | DEPHASE | BIT_FLIP | PHASE_FLIP | AMPLITUDE_DAMP | PHASE_DAMP | PAULI_CHANNEL | KRAUS_CHANNEL
       | READOUT_ERROR | LEAKAGE_MODEL | CROSSTALK_MODEL => true
    case _ => false
  }

  predicate IsDestructive(op: Op) {
    op.MEASURE? || op.MEASURE_Z? || op.MEASURE_X? || op.MEASURE_Y? || op.MEASURE_BASIS? || op.POVM?
      || op.REMOTE_MEASURE?
  }

  predicate IsDistributed(op: Op) {
    match op
    case ENTANGLE_LINK | EPR_RESERVE | EPR_RELEASE | TELEPORT | REMOTE_CONTROL | REMOTE_CNOT | REMOTE_MEASURE
       | CLASSICAL_FEEDBACK | ENTANGLEMENT_SWAP | PURIFY | HERALD | SYNC_QCLOCK | QCHANNEL_SEND
       | QCHANNEL_RECEIVE => true
    case _ => false
  }

  predicate IsDeclaration(op: Op) {
    match op
    case DECLARE_NODE | DECLARE_DOMAIN | DECLARE_LINK | DECLARE_TOPOLOGY | DECLARE_FEDERATION
       | NOTE | EMIT_LEDGER | CLAIM | ASSERT_INVARIANT => true
    case _ => false
  }

  // ----- Cells and keys -----

  /** A reference read from a cell: a name, an index, or the half-open range of indices lo to hi. */
  datatype Ref = Ref(name: string, lo: Option<nat>, hi: Option<nat>)

  /** An operand cell: its text and the reference it parses as, if it does. */
  datatype Cell = Cell(text: string, ref: Option<Ref>)

  /** What ownership is recorded under. A preparation whose output is no reference records the text itself. */
  datatype Key = Whole(name: string) | Indexed(name: string, index: nat) | Raw(text: string)

  function Keys(c: Cell): seq<Key> {
    if c.ref == None then []
    else var r := c.ref.value;
         if r.lo == None then [Whole(r.name)]
         else if r.hi == None then [Indexed(r.name, r.lo.value)]
         else KeyRange(r.name, r.lo.value, r.hi.value)
  }

  function KeyRange(name: string, lo: nat, hi: nat): (keys: seq<Key>)
    ensures |keys| == if lo < hi then hi - lo else 0
    ensures forall i :: 0 <= i < |keys| ==> keys[i] == Indexed(name, lo + i)
    decreases hi - lo
  {
    if lo < hi then [Indexed(name, lo)] + KeyRange(name, lo + 1, hi) else []
  }

  /** The single key a remote gate looks its operand up by: the first index only. */
  function FirstKey(r: Ref): Key {
    if r.lo == None then Whole(r.name) else Indexed(r.name, r.lo.value)
  }

  // ----- Rows -----

  /** A cell checked against one of the fixed vocabularies. */
  datatype Word = NoWord | Known(name: string) | Unknown(text: string)

  datatype OwnedType = QUBIT | QUDIT | QREG | KET | PURE_STATE | MIXED_STATE | DENSITY | SUBSYSTEM | BIPARTITE_STATE
                     | MULTIPARTITE_STATE | ENTANGLED_STATE | SEPARABLE_STATE | EBIT

  datatype TypeCell = NoType | Owned(kind: OwnedType) | OtherType(name: string) | UnknownType(text: string)

  datatype Row = Row(id: string, face: Word, op: Op, out: Cell, ctrl: Cell, a: Cell, b: Cell, params: seq<real>,
                     kind: TypeCell, family: Word, regime: Word, approx: bool, confidence: Option<real>,
                     domain: string, node: string, link: string)

  datatype Program = Program(network: string, backend: string, rows: seq<Row>)

  function Reads(r: Row): seq<Key> {
    Keys(r.ctrl) + Keys(r.a) + Keys(r.b)
  }

  /** Outputs, and the operands a gate or channel works on in place; a controlled gate writes only its target. */
  function Writes(r: Row): seq<Key> {
    Keys(r.out) +
    if IsControlled(r.op) then Keys(r.a)
    else if Arity(r.op).Some? || IsNoise(r.op) then Keys(r.a) + Keys(r.b) + Keys(r.ctrl)
    else []
  }

  function Distinct(keys: seq<Key>): (r: seq<Key>)
    ensures forall k :: k in r <==> k in keys
    ensures forall i, j :: 0 <= i < j < |r| ==> r[i] != r[j]
  {
    if keys == [] then []
    else var rest := Distinct(keys[..|keys| - 1]);
         var last := keys[|keys| - 1];
         assert keys == keys[..|keys| - 1] + [last];
         if last in rest then rest else rest + [last]
  }

  function Uses(r: Row): seq<Key> {
    Distinct(Reads(r) + Writes(r))
  }

  predicate Hinted(name: string) {
    "q" <= name || "anc" <= name || "ebit" <= name || "psi" <= name || "rho" <= name || "log" <= name
  }

  /** Whether a key never recorded must be quantum: by the row's type, or by the look of its name under a gate. */
  predicate LooksQuantum(r: Row, k: Key) {
    || r.kind.Owned?
    || ((Arity(r.op).Some? || IsReinit(r.op) || IsNoise(r.op)) && !k.Raw? && Hinted(k.name))
  }

  /** What a preparation prepares. */
  function Prepared(r: Row): seq<Key> {
    var outs := Distinct(Writes(r));
    if outs != [] then outs else if r.out.text == NULL_CELL then [] else [Raw(r.out.text)]
  }

  /** What a measurement measures: its A operand, or its control if A is no reference. */
  function Measured(r: Row): seq<Key> {
    if r.a.ref.Some? then Keys(r.a) else Keys(r.ctrl)
  }

  /** The pairs a teleportation moves between, as far as the shorter side goes. */
  function Moves(r: Row): seq<(Key, Key)> {
    Zip(Keys(r.a), Keys(r.out))
  }

  function Zip(s: seq<Key>, d: seq<Key>): (z: seq<(Key, Key)>)
    ensures |z| == if |s| < |d| then |s| else |d|
    ensures forall i :: 0 <= i < |z| ==> z[i] == (s[i], d[i])
  {
    if s == [] || d == [] then [] else [(s[0], d[0])] + Zip(s[1..], d[1..])
  }

  predicate Teleports(r: Row) {
    r.op.TELEPORT? && r.a.ref.Some? && r.out.ref.Some? && r.link != NULL_CELL
  }
}
