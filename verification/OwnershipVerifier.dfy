/** The static verifier: one pass over the rows, with the ownership record of every quantum object, reporting what
    is wrong with each row and never stopping early. */
module OwnershipVerifier {
  import opened Common
  import opened Catalog
  import opened Text

  datatype Code =
    | E_POL_001 | E_POL_002 | E_FACE_001 | E_REG_001 | E_OP_001 | E_TYPE_001 | E_FAM_001 | E_CONF_001
    | E_NODE_001 | E_DOM_001 | E_LINK_001 | E_ARITY_001 | E_PARAM_001 | E_CTRL_001 | E_PROB_001
    | E_OWN_001 | E_OWN_002 | E_OWN_003 | E_OWN_005 | E_OWN_006 | E_CLONE_001
    | E_PROTO_001 | E_PROTO_002 | E_PROTO_003 | E_PROTO_004 | W_PROTO_005 | E_EPR_001 | E_EPR_002 | E_EPR_003
    | E_CTL_002 | E_CTL_003 | E_REG_002 | E_REG_003

  /** Every code rejects but the one warning. */
  predicate Clean(codes: seq<Code>) {
    forall c :: c in codes ==> c == W_PROTO_005
  }

  datatype State = LIVE | MOVED | MEASURED | RELEASED

  datatype OwnershipRecord = OwnershipRecord(lineage: nat, state: State, node: string, domain: string, lastRow: string)

  type Owners = map<Key, OwnershipRecord>

  /** The names declared so far and the classical values measured so far. */
  datatype Names = Names(nodes: set<string>, domains: set<string>, links: set<string>, bits: set<string>)

  /** Ownership, and the number of lineages handed out. */
  datatype Book = Book(own: Owners, lineages: nat)

  const NO_NAMES := Names({}, {}, {}, {})
  const NO_OWNERS := Book(map[], 0)

  // ----- Checks that look at the row and the declared names only -----

  function If(bad: bool, code: Code): seq<Code> {
    if bad then [code] else []
  }

  /** The row is not looked at past its face or operation. */
  predicate Unreadable(r: Row) {
    !r.face.Known? || r.op.UnknownOp?
  }

  function SchemaCodes(r: Row): seq<Code> {
    if !r.face.Known? then [E_FACE_001] else
    If(r.regime.Unknown?, E_REG_001) +
    if r.op.UnknownOp? then [E_OP_001] else
    If(r.kind.UnknownType?, E_TYPE_001) + If(r.family.Unknown?, E_FAM_001) +
    If(r.confidence.Some? && !(0.0 <= r.confidence.value <= 1.0), E_CONF_001)
  }

  function ReferenceCodes(n: Names, r: Row): seq<Code> {
    If(r.node != NULL_CELL && r.node !in n.nodes, E_NODE_001) +
    If(r.domain != NULL_CELL && r.domain !in n.domains && r.node == NULL_CELL, E_DOM_001) +
    If(r.link != NULL_CELL && r.link !in n.links, E_LINK_001)
  }

  /** Two operands share a key. */
  predicate Meet(x: Cell, y: Cell) {
    exists k :: k in Keys(x) && k in Keys(y)
  }

  function BadProbabilities(params: seq<real>): seq<Code> {
    if params == [] then [] else If(!(0.0 <= params[0] <= 1.0), E_PROB_001) + BadProbabilities(params[1..])
  }

  function GateCodes(r: Row): seq<Code> {
    (if Arity(r.op).Some? then
       If(|Keys(r.ctrl)| + |Keys(r.a)| + |Keys(r.b)| != Arity(r.op).value, E_ARITY_001) +
       If(IsParametric(r.op) && r.params == [], E_PARAM_001)
     else []) +
    If(IsControlled(r.op) && Meet(r.ctrl, r.a), E_CTRL_001) +
    if IsNoise(r.op) then BadProbabilities(r.params) else []
  }

  function CloneCodes(r: Row): seq<Code> {
    If((r.op.TENSOR? || r.op.MERGE?) && Meet(r.a, r.b), E_CLONE_001)
  }

  predicate IsEntangling(op: Op) {
    op.ENTANGLE_LINK? || op.EPR_RESERVE?
  }

  predicate IsRemoteGate(op: Op) {
    op.REMOTE_CNOT? || op.REMOTE_CONTROL?
  }

  /** What a protocol row lacks: operands to move between, or the link to do it over. */
  function ProtocolCodes(r: Row): seq<Code> {
    (if r.op.TELEPORT? then
       if r.a.ref == None || r.out.ref == None then [E_PROTO_001] else If(r.link == NULL_CELL, E_PROTO_002)
     else []) +
    If(IsEntangling(r.op) && r.link == NULL_CELL, E_EPR_001) +
    If(IsRemoteGate(r.op) && r.link == NULL_CELL, E_PROTO_004)
  }

  predicate IsConditional(op: Op) {
    op.CLASSICAL_IF? || op.CLASSICAL_SWITCH? || op.FEEDBACK? || op.CLASSICAL_FEEDBACK?
  }

  function Condition(r: Row): string {
    if r.ctrl.text != NULL_CELL then r.ctrl.text else r.a.text
  }

  function ControlCodes(n: Names, r: Row): seq<Code> {
    if !IsConditional(r.op) then []
    else if Condition(r) == NULL_CELL then [E_CTL_002]
    else If(Condition(r) !in n.bits, E_CTL_003)
  }

  predicate ClaimsExact(r: Row) {
    r.regime.Known? && (r.regime.name == "EXACT" || r.regime.name == "EXACT_LINEAR"
      || r.regime.name == "PIECEWISE_EXACT")
  }

  function HonestyCodes(r: Row): seq<Code> {
    If(ClaimsExact(r) && IsNoise(r.op), E_REG_002) + If(ClaimsExact(r) && r.approx, E_REG_003)
  }

  /** The names after a row: its declaration, or the classical value it measures. */
  function NextNames(n: Names, r: Row): Names {
    if Unreadable(r) then n
    else if r.op.DECLARE_NODE? then n.(nodes := n.nodes + {r.out.text})
    else if r.op.DECLARE_DOMAIN? then n.(domains := n.domains + {r.out.text})
    else if r.op.DECLARE_LINK? then n.(links := n.links + {r.out.text})
    else if IsDestructive(r.op) && r.out.text != NULL_CELL then n.(bits := n.bits + {r.out.text})
    else n
  }

  // ----- Ownership checks -----

  function UseCodes(own: Owners, r: Row, k: Key): seq<Code> {
    if k !in own then If(LooksQuantum(r, k), E_OWN_005)
    else match own[k].state
      case MOVED => [E_OWN_001]
      case MEASURED => [E_OWN_002]
      case RELEASED => [E_OWN_006]
      case LIVE => If(own[k].node != NULL_CELL && own[k].node != r.node && !IsDistributed(r.op), E_OWN_003)
  }

  function AllUseCodes(own: Owners, r: Row, keys: seq<Key>): seq<Code> {
    if keys == [] then [] else AllUseCodes(own, r, keys[..|keys| - 1]) + UseCodes(own, r, keys[|keys| - 1])
  }

  function TeleportCodes(b: Book, r: Row, moves: seq<(Key, Key)>): seq<Code> {
    if moves == [] then []
    else TeleportCodes(b, r, moves[..|moves| - 1]) +
         If(moves[|moves| - 1].0 !in TeleportAll(b, r, moves[..|moves| - 1]).own, E_PROTO_003)
  }

  function ReleaseCodes(own: Owners, r: Row, keys: seq<Key>): seq<Code> {
    if keys == [] then []
    else var so, k := Release(own, r, keys[..|keys| - 1]), keys[|keys| - 1];
         ReleaseCodes(own, r, keys[..|keys| - 1]) +
         if k !in so then [E_EPR_002] else If(so[k].state == RELEASED, E_EPR_003)
  }

  /** A remote gate between objects of the same node: a warning only. */
  function ColocatedCodes(own: Owners, r: Row): seq<Code> {
    if IsRemoteGate(r.op) && r.ctrl.ref.Some? && r.a.ref.Some? then
      var c, t := FirstKey(r.ctrl.ref.value), FirstKey(r.a.ref.value);
      If(c in own && t in own && own[c].node == own[t].node, W_PROTO_005)
    else []
  }

  // ----- Ownership updates -----

  function Fresh(b: Book, r: Row, k: Key): Book {
    Book(b.own[k := OwnershipRecord(b.lineages + 1, LIVE, r.node, r.domain, r.id)], b.lineages + 1)
  }

  function FreshAll(b: Book, r: Row, keys: seq<Key>): Book {
    if keys == [] then b else Fresh(FreshAll(b, r, keys[..|keys| - 1]), r, keys[|keys| - 1])
  }

  function Mark(own: Owners, r: Row, k: Key, state: State): Owners {
    if k in own then own[k := own[k].(state := state, lastRow := r.id)] else own
  }

  function MarkAll(own: Owners, r: Row, keys: seq<Key>, state: State): Owners {
    if keys == [] then own else Mark(MarkAll(own, r, keys[..|keys| - 1], state), r, keys[|keys| - 1], state)
  }

  /** Move one object: the source is spent and the destination carries its lineage on. */
  function Teleport(b: Book, r: Row, move: (Key, Key)): Book {
    if move.0 !in b.own then b else
    var lineage := b.own[move.0].lineage;
    b.(own := Mark(b.own, r, move.0, MOVED)[move.1 := OwnershipRecord(lineage, LIVE, r.node, r.domain, r.id)])
  }

  function TeleportAll(b: Book, r: Row, moves: seq<(Key, Key)>): Book {
    if moves == [] then b else Teleport(TeleportAll(b, r, moves[..|moves| - 1]), r, moves[|moves| - 1])
  }

  /** Records for outputs not recorded yet; those recorded are only touched. */
  function Touch(b: Book, r: Row, k: Key): Book {
    if k in b.own then b.(own := b.own[k := b.own[k].(lastRow := r.id)])
    else if LooksQuantum(r, k) then Fresh(b, r, k) else b
  }

  function TouchAll(b: Book, r: Row, keys: seq<Key>): Book {
    if keys == [] then b else Touch(TouchAll(b, r, keys[..|keys| - 1]), r, keys[|keys| - 1])
  }

  /** The consumption, moves and new objects of a row that is no preparation. */
  function Effect(b: Book, r: Row): Book {
    if IsDestructive(r.op) then b.(own := MarkAll(b.own, r, Measured(r), MEASURED))
    else if r.op.TELEPORT? then (if Teleports(r) then TeleportAll(b, r, Moves(r)) else b)
    else if IsEntangling(r.op) then FreshAll(b, r, Keys(r.out))
    else if r.op.EPR_RELEASE? then b.(own := Release(b.own, r, Keys(r.a)))
    else b
  }

  /** Release what is not released already. */
  function Release(own: Owners, r: Row, keys: seq<Key>): Owners {
    if keys == [] then own else
    var rest, k := Release(own, r, keys[..|keys| - 1]), keys[|keys| - 1];
    if k in rest && rest[k].state == RELEASED then rest else Mark(rest, r, k, RELEASED)
  }

  function EffectCodes(b: Book, r: Row): seq<Code> {
    if Teleports(r) then TeleportCodes(b, r, Moves(r))
    else if r.op.EPR_RELEASE? then ReleaseCodes(b.own, r, Keys(r.a))
    else []
  }

  // ----- One row -----

  /** Codes of a readable row that is neither a declaration nor a preparation, past its gate checks. */
  function OperationCodes(n: Names, b: Book, r: Row): seq<Code> {
    AllUseCodes(b.own, r, Uses(r)) + CloneCodes(r) + ProtocolCodes(r) +
    EffectCodes(b, r) + ColocatedCodes(b.own, r) + ControlCodes(n, r) + HonestyCodes(r)
  }

  function RowCodes(n: Names, b: Book, r: Row): seq<Code> {
    if Unreadable(r) || IsDeclaration(r.op) then SchemaCodes(r) else
    SchemaCodes(r) + ReferenceCodes(n, r) + GateCodes(r) +
    if IsReinit(r.op) then [] else OperationCodes(n, b, r)
  }

  function RowBook(b: Book, r: Row): Book {
    if Unreadable(r) || IsDeclaration(r.op) then b
    else if IsReinit(r.op) then FreshAll(b, r, Prepared(r))
    else if IsDestructive(r.op) || IsDistributed(r.op) then Effect(b, r)
    else TouchAll(Effect(b, r), r, Distinct(Writes(r)))
  }

  // ----- All rows -----

  function NamesAfter(rows: seq<Row>): Names {
    if rows == [] then NO_NAMES else NextNames(NamesAfter(rows[..|rows| - 1]), rows[|rows| - 1])
  }

  function BookAfter(rows: seq<Row>): Book {
    if rows == [] then NO_OWNERS else RowBook(BookAfter(rows[..|rows| - 1]), rows[|rows| - 1])
  }

  function CodesAfter(rows: seq<Row>): seq<Code> {
    if rows == [] then []
    else var before, r := rows[..|rows| - 1], rows[|rows| - 1];
         CodesAfter(before) + RowCodes(NamesAfter(before), BookAfter(before), r)
  }

  function PolicyCodes(p: Program): seq<Code> {
    If(p.network != "deny", E_POL_001) + If(p.backend != "none", E_POL_002)
  }

  predicate Accepted(p: Program) {
    Clean(PolicyCodes(p) + CodesAfter(p.rows))
  }

  // ----- The verifier -----

  method CheckUses(own: Owners, r: Row, keys: seq<Key>) returns (codes: seq<Code>)
    ensures codes == AllUseCodes(own, r, keys)
  {
    codes := [];
    for i := 0 to |keys|
      invariant codes == AllUseCodes(own, r, keys[..i])
    {
      assert keys[..i + 1][..i] == keys[..i];
      codes := codes + UseCodes(own, r, keys[i]);
    }
    assert keys[..|keys|] == keys;
  }

  method PrepareEach(b: Book, r: Row, keys: seq<Key>) returns (book: Book)
    ensures book == FreshAll(b, r, keys)
  {
    book := b;
    for i := 0 to |keys|
      invariant book == FreshAll(b, r, keys[..i])
    {
      assert keys[..i + 1][..i] == keys[..i];
      var lineage := book.lineages + 1;
      book := Book(book.own[keys[i] := OwnershipRecord(lineage, LIVE, r.node, r.domain, r.id)], lineage);
    }
    assert keys[..|keys|] == keys;
  }

  method MeasureEach(b: Owners, r: Row, keys: seq<Key>) returns (own: Owners)
    ensures own == MarkAll(b, r, keys, MEASURED)
  {
    own := b;
    for i := 0 to |keys|
      invariant own == MarkAll(b, r, keys[..i], MEASURED)
    {
      assert keys[..i + 1][..i] == keys[..i];
      if keys[i] in own {
        own := own[keys[i] := own[keys[i]].(state := MEASURED, lastRow := r.id)];
      }
    }
    assert keys[..|keys|] == keys;
  }

  method TeleportEach(b: Book, r: Row, moves: seq<(Key, Key)>) returns (book: Book, codes: seq<Code>)
    ensures book == TeleportAll(b, r, moves) && codes == TeleportCodes(b, r, moves)
  {
    book, codes := b, [];
    for i := 0 to |moves|
      invariant book == TeleportAll(b, r, moves[..i]) && codes == TeleportCodes(b, r, moves[..i])
    {
      assert moves[..i + 1][..i] == moves[..i];
      var source, destination := moves[i].0, moves[i].1;
      if source !in book.own {
        codes := codes + [E_PROTO_003];
      } else {
        var lineage := book.own[source].lineage;
        var own := book.own[source := book.own[source].(state := MOVED, lastRow := r.id)];
        book := book.(own := own[destination := OwnershipRecord(lineage, LIVE, r.node, r.domain, r.id)]);
      }
    }
    assert moves[..|moves|] == moves;
  }

  method ReleaseEach(b: Owners, r: Row, keys: seq<Key>) returns (own: Owners, codes: seq<Code>)
    ensures own == Release(b, r, keys) && codes == ReleaseCodes(b, r, keys)
  {
    own, codes := b, [];
    for i := 0 to |keys|
      invariant own == Release(b, r, keys[..i]) && codes == ReleaseCodes(b, r, keys[..i])
    {
      assert keys[..i + 1][..i] == keys[..i];
      if keys[i] !in own {
        codes := codes + [E_EPR_002];
      } else if own[keys[i]].state == RELEASED {
        codes := codes + [E_EPR_003];
      } else {
        own := own[keys[i] := own[keys[i]].(state := RELEASED, lastRow := r.id)];
      }
    }
    assert keys[..|keys|] == keys;
  }

  method TouchEach(b: Book, r: Row, keys: seq<Key>) returns (book: Book)
    ensures book == TouchAll(b, r, keys)
  {
    book := b;
    for i := 0 to |keys|
      invariant book == TouchAll(b, r, keys[..i])
    {
      assert keys[..i + 1][..i] == keys[..i];
      if keys[i] in book.own {
        book := book.(own := book.own[keys[i] := book.own[keys[i]].(lastRow := r.id)]);
      } else if LooksQuantum(r, keys[i]) {
        var lineage := book.lineages + 1;
        book := Book(book.own[keys[i] := OwnershipRecord(lineage, LIVE, r.node, r.domain, r.id)], lineage);
      }
    }
    assert keys[..|keys|] == keys;
  }

  method ApplyEffect(b: Book, r: Row) returns (book: Book, codes: seq<Code>)
    ensures book == Effect(b, r) && codes == EffectCodes(b, r)
  {
    book, codes := b, [];
    if IsDestructive(r.op) {
      var own := MeasureEach(b.own, r, Measured(r));
      book := b.(own := own);
    }
    if Teleports(r) {
      book, codes := TeleportEach(b, r, Moves(r));
    }
    if IsEntangling(r.op) {
      book := PrepareEach(b, r, Keys(r.out));
    }
    if r.op.EPR_RELEASE? {
      var own;
      own, codes := ReleaseEach(b.own, r, Keys(r.a));
      book := b.(own := own);
    }
  }

  /** The ownership side of one operation. */
  method Operate(n: Names, b: Book, r: Row) returns (book: Book, codes: seq<Code>)
    requires !Unreadable(r) && !IsDeclaration(r.op) && !IsReinit(r.op)
    ensures book == RowBook(b, r) && codes == OperationCodes(n, b, r)
  {
    var uses := CheckUses(b.own, r, Uses(r));
    codes := uses + CloneCodes(r) + ProtocolCodes(r);
    var more;
    book, more := ApplyEffect(b, r);
    codes := codes + more + ColocatedCodes(b.own, r) + ControlCodes(n, r) + HonestyCodes(r);
    if !IsDestructive(r.op) && !IsDistributed(r.op) {
      book := TouchEach(book, r, Distinct(Writes(r)));
    }
  }

  method VerifyRow(n: Names, b: Book, r: Row) returns (book: Book, codes: seq<Code>)
    ensures book == RowBook(b, r) && codes == RowCodes(n, b, r)
  {
    book, codes := b, SchemaCodes(r);
    if Unreadable(r) || IsDeclaration(r.op) {
      return;
    }
    codes := codes + ReferenceCodes(n, r) + GateCodes(r);
    if IsReinit(r.op) {
      book := PrepareEach(b, r, Prepared(r));
    } else {
      var more;
      book, more := Operate(n, b, r);
      codes := codes + more;
    }
  }

  lemma Joined(a: seq<Code>, b: seq<Code>, c: seq<Code>)
    ensures (a + b) + c == a + (b + c)
  {
  }

  method Verify(p: Program) returns (ok: bool, codes: seq<Code>, book: Book)
    ensures codes == PolicyCodes(p) + CodesAfter(p.rows) && book == BookAfter(p.rows)
    ensures ok <==> Accepted(p)
  {
    codes := PolicyCodes(p);
    var names := NO_NAMES;
    book := NO_OWNERS;
    for i := 0 to |p.rows|
      invariant codes == PolicyCodes(p) + CodesAfter(p.rows[..i])
      invariant names == NamesAfter(p.rows[..i]) && book == BookAfter(p.rows[..i])
    {
      assert p.rows[..i + 1][..i] == p.rows[..i];
      var more;
      Joined(PolicyCodes(p), CodesAfter(p.rows[..i]), RowCodes(names, book, p.rows[i]));
      book, more := VerifyRow(names, book, p.rows[i]);
      codes := codes + more;
      names := NextNames(names, p.rows[i]);
    }
    assert p.rows[..|p.rows|] == p.rows;
    ok := Clean(codes);
  }
}
