/** A machine of linear objects: every object is in at most one place and is never copied. It gets stuck on any use
    of an object that is not there. The verifier accepts exactly the programs, sound in all other respects, that
    run on it to the end. */
module LinearMachine {
  import opened Common
  import opened Catalog
  import opened Text
  import opened OwnershipVerifier

  /** A place holds an object at a node, or has held one and no longer does. */
  datatype Slot = Holds(token: nat, node: string) | Spent

  type Slots = map<Key, Slot>

  /** The places, and the number of objects made so far. */
  datatype Machine = Machine(slots: Slots, made: nat)

  // ----- Running a row -----

  predicate MayUse(slots: Slots, r: Row, k: Key) {
    if k in slots then
      slots[k].Holds? && (slots[k].node == NULL_CELL || slots[k].node == r.node || IsDistributed(r.op))
    else !LooksQuantum(r, k)
  }

  predicate MayUseAll(slots: Slots, r: Row, keys: seq<Key>) {
    forall k :: k in keys ==> MayUse(slots, r, k)
  }

  function Make(m: Machine, node: string, k: Key): Machine {
    Machine(m.slots[k := Holds(m.made + 1, node)], m.made + 1)
  }

  function MakeAll(m: Machine, node: string, keys: seq<Key>): Machine {
    if keys == [] then m else Make(MakeAll(m, node, keys[..|keys| - 1]), node, keys[|keys| - 1])
  }

  /** Empty a place; a key that is no place is a classical name. */
  function Spend(slots: Slots, k: Key): Slots {
    if k in slots then slots[k := Spent] else slots
  }

  function SpendAll(slots: Slots, keys: seq<Key>): Slots {
    if keys == [] then slots else Spend(SpendAll(slots, keys[..|keys| - 1]), keys[|keys| - 1])
  }

  /** Carry the object at the source to the destination, where whatever was there is lost. */
  function Carry(m: Machine, node: string, move: (Key, Key)): Option<Machine> {
    if move.0 in m.slots && m.slots[move.0].Holds? then
      Some(m.(slots := m.slots[move.0 := Spent][move.1 := Holds(m.slots[move.0].token, node)]))
    else None
  }

  function CarryAll(m: Machine, node: string, moves: seq<(Key, Key)>): Option<Machine> {
    if moves == [] then Some(m)
    else match CarryAll(m, node, moves[..|moves| - 1])
      case None => None
      case Some(m') => Carry(m', node, moves[|moves| - 1])
  }

  function RunEffect(m: Machine, r: Row): Option<Machine> {
    if IsDestructive(r.op) then Some(m.(slots := SpendAll(m.slots, Measured(r))))
    else if Teleports(r) then CarryAll(m, r.node, Moves(r))
    else if IsEntangling(r.op) then Some(MakeAll(m, r.node, Keys(r.out)))
    else if r.op.EPR_RELEASE? then
      if forall k :: k in Keys(r.a) ==> k in m.slots then Some(m.(slots := SpendAll(m.slots, Keys(r.a)))) else None
    else Some(m)
  }

  function RunRow(m: Machine, r: Row): Option<Machine> {
    if Unreadable(r) || IsDeclaration(r.op) then Some(m)
    else if IsReinit(r.op) then Some(MakeAll(m, r.node, Prepared(r)))
    else if MayUseAll(m.slots, r, Uses(r)) then RunEffect(m, r)
    else None
  }

  const START := Machine(map[], 0)

  function Run(rows: seq<Row>): Option<Machine> {
    if rows == [] then Some(START)
    else match Run(rows[..|rows| - 1])
      case None => None
      case Some(m) => RunRow(m, rows[|rows| - 1])
  }

  // ----- Objects are never copied, and never come back -----

  predicate HoldsToken(m: Machine, k: Key, token: int) {
    k in m.slots && m.slots[k].Holds? && m.slots[k].token == token
  }

  ghost predicate Present(m: Machine, token: int) {
    exists k :: HoldsToken(m, k, token)
  }

  ghost predicate HeldOnce(m: Machine) {
    && (forall k :: k in m.slots && m.slots[k].Holds? ==> 1 <= m.slots[k].token <= m.made)
    && (forall j, k, t :: HoldsToken(m, j, t) && HoldsToken(m, k, t) ==> j == k)
  }

  /** Whatever is present later and is not new was present before. */
  ghost predicate NoneReturn(m: Machine, later: Machine) {
    m.made <= later.made && forall k, t :: HoldsToken(later, k, t) && t <= m.made ==> Present(m, t)
  }

  lemma NoneReturnThrough(m: Machine, mid: Machine, later: Machine)
    requires NoneReturn(m, mid) && NoneReturn(mid, later)
    ensures NoneReturn(m, later)
  {
    forall k, t | HoldsToken(later, k, t) && t <= m.made
      ensures Present(m, t)
    {
      assert Present(mid, t);
      var j :| HoldsToken(mid, j, t);
    }
  }

  lemma {:induction false} MakeAllKeeps(m: Machine, node: string, keys: seq<Key>)
    requires HeldOnce(m)
    ensures HeldOnce(MakeAll(m, node, keys)) && NoneReturn(m, MakeAll(m, node, keys))
    decreases |keys|
  {
    if keys == [] {
      StayPresent(m, m);
    } else {
      var before := MakeAll(m, node, keys[..|keys| - 1]);
      MakeAllKeeps(m, node, keys[..|keys| - 1]);
      MakeKeeps(before, node, keys[|keys| - 1]);
      NoneReturnThrough(m, before, MakeAll(m, node, keys));
    }
  }

  lemma MakeKeeps(m: Machine, node: string, k: Key)
    requires HeldOnce(m)
    ensures HeldOnce(Make(m, node, k)) && NoneReturn(m, Make(m, node, k))
  {
    var after := Make(m, node, k);
    forall j, t | HoldsToken(after, j, t) && t <= m.made
      ensures Present(m, t)
    {
      assert HoldsToken(m, j, t);
    }
    forall i, j, t | HoldsToken(after, i, t) && HoldsToken(after, j, t)
      ensures i == j
    {
      if i != k && j != k {
        assert HoldsToken(m, i, t) && HoldsToken(m, j, t);
      }
    }
  }

  lemma StayPresent(m: Machine, after: Machine)
    requires m.made <= after.made && forall k, t :: HoldsToken(after, k, t) ==> HoldsToken(m, k, t)
    ensures NoneReturn(m, after)
  {
    forall k, t | HoldsToken(after, k, t) && t <= m.made
      ensures Present(m, t)
    {
      assert HoldsToken(m, k, t);
    }
  }

  lemma {:induction false} SpendAllKeeps(m: Machine, keys: seq<Key>)
    requires HeldOnce(m)
    ensures var after := m.(slots := SpendAll(m.slots, keys));
            HeldOnce(after) && NoneReturn(m, after) && forall k, t :: HoldsToken(after, k, t) ==> HoldsToken(m, k, t)
    decreases |keys|
  {
    if keys != [] {
      SpendAllKeeps(m, keys[..|keys| - 1]);
    }
    var after := m.(slots := SpendAll(m.slots, keys));
    if keys != [] {
      var before := m.(slots := SpendAll(m.slots, keys[..|keys| - 1]));
      assert forall k, t :: HoldsToken(after, k, t) ==> HoldsToken(before, k, t);
    }
    StayPresent(m, after);
  }

  lemma CarryKeeps(m: Machine, node: string, move: (Key, Key))
    requires HeldOnce(m) && Carry(m, node, move).Some?
    ensures HeldOnce(Carry(m, node, move).value) && NoneReturn(m, Carry(m, node, move).value)
  {
    var after := Carry(m, node, move).value;
    var token := m.slots[move.0].token;
    assert HoldsToken(m, move.0, token);
    forall k, t | HoldsToken(after, k, t)
      ensures Present(m, t) && (if k == move.1 then t == token else k != move.0 && HoldsToken(m, k, t))
    {
      assert HoldsToken(m, if k == move.1 then move.0 else k, t);
    }
  }

  lemma {:induction false} CarryAllKeeps(m: Machine, node: string, moves: seq<(Key, Key)>)
    requires HeldOnce(m) && CarryAll(m, node, moves).Some?
    ensures HeldOnce(CarryAll(m, node, moves).value) && NoneReturn(m, CarryAll(m, node, moves).value)
    decreases |moves|
  {
    if moves == [] {
      StayPresent(m, m);
    } else {
      var before := CarryAll(m, node, moves[..|moves| - 1]).value;
      CarryAllKeeps(m, node, moves[..|moves| - 1]);
      CarryKeeps(before, node, moves[|moves| - 1]);
      NoneReturnThrough(m, before, CarryAll(m, node, moves).value);
    }
  }

  lemma RowKeeps(m: Machine, r: Row)
    requires HeldOnce(m) && RunRow(m, r).Some?
    ensures HeldOnce(RunRow(m, r).value) && NoneReturn(m, RunRow(m, r).value)
  {
    StayPresent(m, m);
    MakeAllKeeps(m, r.node, Prepared(r));
    MakeAllKeeps(m, r.node, Keys(r.out));
    SpendAllKeeps(m, Measured(r));
    SpendAllKeeps(m, Keys(r.a));
    if CarryAll(m, r.node, Moves(r)).Some? {
      CarryAllKeeps(m, r.node, Moves(r));
    }
  }

  lemma {:induction false} RunKeeps(rows: seq<Row>, i: nat)
    requires Run(rows).Some? && i <= |rows|
    ensures Run(rows[..i]).Some?
    ensures HeldOnce(Run(rows).value) && NoneReturn(Run(rows[..i]).value, Run(rows).value)
    decreases |rows|
  {
    assert rows[..|rows|] == rows;
    if i == |rows| {
      StayPresent(Run(rows).value, Run(rows).value);
    }
    if rows != [] {
      var before := rows[..|rows| - 1];
      RunKeeps(before, if i < |rows| then i else |before|);
      RowKeeps(Run(before).value, rows[|rows| - 1]);
      if i < |rows| {
        assert before[..i] == rows[..i];
        NoneReturnThrough(Run(rows[..i]).value, Run(before).value, Run(rows).value);
      }
    }
  }

  // ----- The verifier's book is a view of the machine -----

  function View(own: Owners): Slots {
    map k | k in own :: if own[k].state == LIVE then Holds(own[k].lineage, own[k].node) else Spent
  }

  function ViewOf(b: Book): Machine {
    Machine(View(b.own), b.lineages)
  }

  lemma {:induction false} ViewFreshAll(b: Book, r: Row, keys: seq<Key>)
    ensures ViewOf(FreshAll(b, r, keys)) == MakeAll(ViewOf(b), r.node, keys)
    decreases |keys|
  {
    if keys != [] {
      ViewFreshAll(b, r, keys[..|keys| - 1]);
      var before, k := FreshAll(b, r, keys[..|keys| - 1]), keys[|keys| - 1];
      assert View(Fresh(before, r, k).own) == View(before.own)[k := Holds(before.lineages + 1, r.node)];
    }
  }

  lemma ViewMark(own: Owners, r: Row, k: Key, state: State)
    requires state != LIVE
    ensures View(Mark(own, r, k, state)) == Spend(View(own), k)
  {
    assert View(Mark(own, r, k, state)) == if k in own then View(own)[k := Spent] else View(own);
  }

  lemma {:induction false} ViewMarkAll(own: Owners, r: Row, keys: seq<Key>, state: State)
    requires state != LIVE
    ensures View(MarkAll(own, r, keys, state)) == SpendAll(View(own), keys)
    decreases |keys|
  {
    if keys != [] {
      ViewMarkAll(own, r, keys[..|keys| - 1], state);
      ViewMark(MarkAll(own, r, keys[..|keys| - 1], state), r, keys[|keys| - 1], state);
    }
  }

  lemma {:induction false} ViewRelease(own: Owners, r: Row, keys: seq<Key>)
    ensures View(Release(own, r, keys)) == SpendAll(View(own), keys)
    decreases |keys|
  {
    if keys != [] {
      var before, k := Release(own, r, keys[..|keys| - 1]), keys[|keys| - 1];
      ViewRelease(own, r, keys[..|keys| - 1]);
      if k in before && before[k].state == RELEASED {
        assert View(before)[k := Spent] == View(before);
      } else {
        ViewMark(before, r, k, RELEASED);
      }
    }
  }

  predicate NoRepeats(keys: seq<Key>) {
    forall i, j :: 0 <= i < j < |keys| ==> keys[i] != keys[j]
  }

  predicate LiveIfKnown(own: Owners, keys: seq<Key>) {
    forall k :: k in keys && k in own ==> own[k].state == LIVE
  }

  lemma CleanJoin(a: seq<Code>, b: seq<Code>)
    ensures Clean(a + b) <==> Clean(a) && Clean(b)
  {
    assert forall c :: c in a + b <==> c in a || c in b;
  }

  lemma CleanIf(bad: bool, code: Code)
    requires code != W_PROTO_005
    ensures Clean(If(bad, code)) <==> !bad
  {
    assert bad ==> code in If(bad, code);
  }

  lemma {:induction false} ReleaseFrame(own: Owners, r: Row, keys: seq<Key>, k: Key)
    requires k !in keys
    ensures k in Release(own, r, keys) <==> k in own
    ensures k in own ==> Release(own, r, keys)[k] == own[k]
    decreases |keys|
  {
    if keys != [] {
      var before, last := keys[..|keys| - 1], keys[|keys| - 1];
      assert keys == before + [last];
      ReleaseFrame(own, r, before, k);
    }
  }

  /** Releasing live, distinct objects is faultless exactly when all are known. */
  lemma {:induction false} ReleaseFaultless(own: Owners, r: Row, keys: seq<Key>)
    requires NoRepeats(keys) && LiveIfKnown(own, keys)
    ensures Clean(ReleaseCodes(own, r, keys)) <==> forall k :: k in keys ==> k in own
    decreases |keys|
  {
    if keys != [] {
      var before, k := keys[..|keys| - 1], keys[|keys| - 1];
      assert keys == before + [k];
      assert forall x :: x in keys <==> x in before || x == k;
      assert k !in before;
      ReleaseFaultless(own, r, before);
      ReleaseFrame(own, r, before, k);
      CleanJoin(ReleaseCodes(own, r, before), If(k !in own, E_EPR_002));
      CleanIf(k !in own, E_EPR_002);
    }
  }

  function Sources(moves: seq<(Key, Key)>): seq<Key> {
    seq(|moves|, i requires 0 <= i < |moves| => moves[i].0)
  }

  /** Teleporting from distinct objects, live if known at all: faultless exactly when the machine can carry them,
      and then the book is still a view of the machine. The objects moved may overlap the places moved to. */
  lemma {:induction false} TeleportsAgree(b: Book, r: Row, moves: seq<(Key, Key)>)
    requires NoRepeats(Sources(moves)) && LiveIfKnown(b.own, Sources(moves))
    ensures Clean(TeleportCodes(b, r, moves)) <==> CarryAll(ViewOf(b), r.node, moves).Some?
    ensures CarryAll(ViewOf(b), r.node, moves).Some? ==>
              CarryAll(ViewOf(b), r.node, moves).value == ViewOf(TeleportAll(b, r, moves))
    ensures var own := TeleportAll(b, r, moves).own;
            forall k :: k !in Sources(moves) && k in own && (k in b.own ==> b.own[k].state == LIVE) ==>
              own[k].state == LIVE
    decreases |moves|
  {
    if moves != [] {
      var before, move := moves[..|moves| - 1], moves[|moves| - 1];
      assert Sources(before) == Sources(moves)[..|before|] && move.0 == Sources(moves)[|before|];
      assert move.0 !in Sources(before);
      TeleportsAgree(b, r, before);
      var mid := TeleportAll(b, r, before);
      CleanJoin(TeleportCodes(b, r, before), If(move.0 !in mid.own, E_PROTO_003));
      CleanIf(move.0 !in mid.own, E_PROTO_003);
      if move.0 in mid.own {
        CarriesOn(mid, r, move);
      }
    }
  }

  lemma CarriesOn(b: Book, r: Row, move: (Key, Key))
    requires move.0 in b.own && b.own[move.0].state == LIVE
    ensures Carry(ViewOf(b), r.node, move) == Some(ViewOf(Teleport(b, r, move)))
  {
    ViewMark(b.own, r, move.0, MOVED);
    var moved := Mark(b.own, r, move.0, MOVED);
    var rec := OwnershipRecord(b.own[move.0].lineage, LIVE, r.node, r.domain, r.id);
    assert View(moved[move.1 := rec]) == View(moved)[move.1 := Holds(rec.lineage, rec.node)];
  }

  lemma {:induction false} UsesAgree(own: Owners, r: Row, keys: seq<Key>)
    ensures Clean(AllUseCodes(own, r, keys)) <==> MayUseAll(View(own), r, keys)
    decreases |keys|
  {
    if keys != [] {
      var before, k := keys[..|keys| - 1], keys[|keys| - 1];
      assert keys == before + [k];
      UsesAgree(own, r, before);
      CleanJoin(AllUseCodes(own, r, before), UseCodes(own, r, k));
      assert Clean(UseCodes(own, r, k)) <==> MayUse(View(own), r, k) by {
        assert UseCodes(own, r, k) != [] ==> UseCodes(own, r, k)[0] in UseCodes(own, r, k);
      }
    }
  }

  /** In an accepted row no output is recorded here for the first time: it would have been used unprepared. */
  lemma {:induction false} TouchingIsInvisible(b: Book, r: Row, keys: seq<Key>)
    requires forall k :: k in keys ==> k in b.own || !LooksQuantum(r, k)
    ensures TouchAll(b, r, keys).own.Keys == b.own.Keys
    ensures ViewOf(TouchAll(b, r, keys)) == ViewOf(b)
    decreases |keys|
  {
    if keys != [] {
      var before, k := keys[..|keys| - 1], keys[|keys| - 1];
      assert keys == before + [k];
      TouchingIsInvisible(b, r, before);
      var mid := TouchAll(b, r, before);
      assert View(Touch(mid, r, k).own) == View(mid.own);
    }
  }

  // ----- One row -----

  predicate Operates(r: Row) {
    !Unreadable(r) && !IsDeclaration(r.op) && !IsReinit(r.op)
  }

  lemma OperandKeysDistinct(c: Cell)
    ensures NoRepeats(Keys(c))
  {
  }

  lemma OperandsAreUses(r: Row)
    ensures forall k :: k in Keys(r.a) || k in Keys(r.b) || k in Keys(r.ctrl) || k in Keys(r.out) ==> k in Uses(r)
    ensures forall k :: k in Writes(r) ==> k in Uses(r)
  {
    assert forall k :: k in Uses(r) <==> k in Reads(r) + Writes(r);
  }

  lemma SourcesAreOperands(r: Row)
    ensures NoRepeats(Sources(Moves(r))) && forall k :: k in Sources(Moves(r)) ==> k in Keys(r.a)
  {
    OperandKeysDistinct(r.a);
    var sources := Sources(Moves(r));
    assert forall i :: 0 <= i < |sources| ==> sources[i] == Keys(r.a)[i];
  }

  lemma EffectAgrees(b: Book, r: Row)
    requires Operates(r) && MayUseAll(View(b.own), r, Uses(r))
    ensures Clean(EffectCodes(b, r)) <==> RunEffect(ViewOf(b), r).Some?
    ensures RunEffect(ViewOf(b), r).Some? ==> RunEffect(ViewOf(b), r).value == ViewOf(Effect(b, r))
  {
    OperandsAreUses(r);
    if IsDestructive(r.op) {
      ViewMarkAll(b.own, r, Measured(r), MEASURED);
    } else if Teleports(r) {
      SourcesAreOperands(r);
      TeleportsAgree(b, r, Moves(r));
    } else if IsEntangling(r.op) {
      ViewFreshAll(b, r, Keys(r.out));
    } else if r.op.EPR_RELEASE? {
      OperandKeysDistinct(r.a);
      ReleaseFaultless(b.own, r, Keys(r.a));
      ViewRelease(b.own, r, Keys(r.a));
    }
  }

  lemma TouchAgrees(b: Book, r: Row)
    requires Operates(r) && MayUseAll(View(b.own), r, Uses(r)) && !IsDestructive(r.op) && !IsDistributed(r.op)
    ensures Effect(b, r) == b
    ensures TouchAll(b, r, Distinct(Writes(r))).own.Keys == b.own.Keys
    ensures ViewOf(TouchAll(b, r, Distinct(Writes(r)))) == ViewOf(b)
  {
    OperandsAreUses(r);
    forall k | k in Distinct(Writes(r))
      ensures k in b.own || !LooksQuantum(r, k)
    {
      assert MayUse(View(b.own), r, k);
    }
    TouchingIsInvisible(b, r, Distinct(Writes(r)));
  }

  lemma RowAgrees(b: Book, r: Row)
    requires Operates(r)
    ensures RunRow(ViewOf(b), r).Some? <==> Clean(AllUseCodes(b.own, r, Uses(r))) && Clean(EffectCodes(b, r))
    ensures RunRow(ViewOf(b), r).Some? ==> RunRow(ViewOf(b), r).value == ViewOf(RowBook(b, r))
  {
    UsesAgree(b.own, r, Uses(r));
    if MayUseAll(View(b.own), r, Uses(r)) {
      EffectAgrees(b, r);
      if !IsDestructive(r.op) && !IsDistributed(r.op) {
        TouchAgrees(b, r);
      }
    }
  }

  /** Every check that has nothing to do with ownership. */
  function OtherCodes(n: Names, r: Row): seq<Code> {
    SchemaCodes(r) +
    if Unreadable(r) || IsDeclaration(r.op) then [] else
    ReferenceCodes(n, r) + GateCodes(r) +
    if IsReinit(r.op) then [] else CloneCodes(r) + ProtocolCodes(r) + ControlCodes(n, r) + HonestyCodes(r)
  }

  lemma OperationCodesSplit(n: Names, b: Book, r: Row)
    ensures Clean(OperationCodes(n, b, r)) <==>
            Clean(CloneCodes(r) + ProtocolCodes(r) + ControlCodes(n, r) + HonestyCodes(r))
            && Clean(AllUseCodes(b.own, r, Uses(r))) && Clean(EffectCodes(b, r))
  {
    var u, c, p := AllUseCodes(b.own, r, Uses(r)), CloneCodes(r), ProtocolCodes(r);
    var e, w, k, h := EffectCodes(b, r), ColocatedCodes(b.own, r), ControlCodes(n, r), HonestyCodes(r);
    CleanJoin(u, c);
    CleanJoin(u + c, p);
    CleanJoin(u + c + p, e);
    CleanJoin(u + c + p + e, w);
    CleanJoin(u + c + p + e + w, k);
    CleanJoin(u + c + p + e + w + k, h);
    CleanJoin(c, p);
    CleanJoin(c + p, k);
    CleanJoin(c + p + k, h);
  }

  lemma RowCodesSplit(n: Names, b: Book, r: Row)
    ensures Clean(RowCodes(n, b, r)) <==>
            Clean(OtherCodes(n, r))
            && (Operates(r) ==> Clean(AllUseCodes(b.own, r, Uses(r))) && Clean(EffectCodes(b, r)))
  {
    if Unreadable(r) || IsDeclaration(r.op) {
      assert SchemaCodes(r) + [] == SchemaCodes(r);
    } else {
      var s, f, g := SchemaCodes(r), ReferenceCodes(n, r), GateCodes(r);
      var o := if IsReinit(r.op) then [] else OperationCodes(n, b, r);
      var x := if IsReinit(r.op) then [] else CloneCodes(r) + ProtocolCodes(r) + ControlCodes(n, r) + HonestyCodes(r);
      CleanJoin(s, f);
      CleanJoin(s + f, g);
      CleanJoin(s + f + g, o);
      CleanJoin(f, g);
      CleanJoin(f + g, x);
      CleanJoin(s, f + g + x);
      if Operates(r) {
        OperationCodesSplit(n, b, r);
      }
    }
  }

  // ----- All rows -----

  predicate OtherwiseSound(rows: seq<Row>) {
    rows == [] ||
    (OtherwiseSound(rows[..|rows| - 1]) && Clean(OtherCodes(NamesAfter(rows[..|rows| - 1]), rows[|rows| - 1])))
  }

  lemma {:induction false} RowsAgree(rows: seq<Row>)
    ensures Clean(CodesAfter(rows)) <==> OtherwiseSound(rows) && Run(rows).Some?
    ensures Clean(CodesAfter(rows)) ==> Run(rows).value == ViewOf(BookAfter(rows))
    decreases |rows|
  {
    if rows == [] {
      assert View(map[]) == map[];
    } else {
      var before, r := rows[..|rows| - 1], rows[|rows| - 1];
      RowsAgree(before);
      var n, b := NamesAfter(before), BookAfter(before);
      CleanJoin(CodesAfter(before), RowCodes(n, b, r));
      RowCodesSplit(n, b, r);
      if Operates(r) {
        RowAgrees(b, r);
      } else if !Unreadable(r) && IsReinit(r.op) {
        ViewFreshAll(b, r, Prepared(r));
      }
    }
  }

  /** A program is accepted exactly when its policy and its other checks are in order and it runs on the linear
      machine to the end; the final records are then a view of the machine. */
  lemma AcceptedIffItRuns(p: Program)
    ensures Accepted(p) <==> Clean(PolicyCodes(p)) && OtherwiseSound(p.rows) && Run(p.rows).Some?
    ensures Accepted(p) ==> Run(p.rows).value == ViewOf(BookAfter(p.rows))
  {
    CleanJoin(PolicyCodes(p), CodesAfter(p.rows));
    RowsAgree(p.rows);
  }

  lemma UnreadableIsUnclean(n: Names, r: Row)
    requires Unreadable(r)
    ensures !Clean(OtherCodes(n, r))
  {
    assert SchemaCodes(r) != [] && SchemaCodes(r)[|SchemaCodes(r)| - 1] in OtherCodes(n, r);
  }

  lemma {:induction false} PrefixIsSound(rows: seq<Row>, i: nat)
    requires OtherwiseSound(rows) && i <= |rows|
    ensures OtherwiseSound(rows[..i])
    ensures i < |rows| ==> !Unreadable(rows[i])
    decreases |rows|
  {
    if i == |rows| {
      assert rows[..i] == rows;
    } else {
      var before, r := rows[..|rows| - 1], rows[|rows| - 1];
      if i < |before| {
        assert before[..i] == rows[..i];
        PrefixIsSound(before, i);
      } else if Unreadable(r) {
        UnreadableIsUnclean(NamesAfter(before), r);
      }
    }
  }

  lemma RunsNext(rows: seq<Row>, i: nat)
    requires i < |rows| && Run(rows[..i]).Some?
    ensures Run(rows[..i + 1]) == RunRow(Run(rows[..i]).value, rows[i])
    ensures BookAfter(rows[..i + 1]) == RowBook(BookAfter(rows[..i]), rows[i])
  {
    assert rows[..i + 1][..i] == rows[..i];
  }

  lemma PrefixRuns(p: Program, i: nat)
    requires Accepted(p) && i <= |p.rows|
    ensures Run(p.rows[..i]) == Some(ViewOf(BookAfter(p.rows[..i])))
    ensures HeldOnce(ViewOf(BookAfter(p.rows[..i])))
    ensures i < |p.rows| ==> !Unreadable(p.rows[i])
  {
    AcceptedIffItRuns(p);
    RunKeeps(p.rows, i);
    PrefixIsSound(p.rows, i);
    RowsAgree(p.rows[..i]);
    RunKeeps(p.rows[..i], 0);
  }

  /** The machine may use every operand of every row of an accepted program. */
  lemma RowMayUse(p: Program, i: nat)
    requires Accepted(p) && i < |p.rows| && Operates(p.rows[i])
    ensures MayUseAll(View(BookAfter(p.rows[..i]).own), p.rows[i], Uses(p.rows[i]))
  {
    PrefixRuns(p, i);
    PrefixRuns(p, i + 1);
    RunsNext(p.rows, i);
  }

  /** Every row of an accepted program that is no preparation uses only live objects, foreign ones only through a
      distributed primitive, and no object that looks quantum but was never prepared. */
  lemma OperandsAreLive(p: Program, i: nat, k: Key)
    requires Accepted(p) && i < |p.rows| && Operates(p.rows[i]) && k in Uses(p.rows[i])
    ensures var r, own := p.rows[i], BookAfter(p.rows[..i]).own;
            if k in own then
              own[k].state == LIVE && (own[k].node == NULL_CELL || own[k].node == r.node || IsDistributed(r.op))
            else !LooksQuantum(r, k)
  {
    RowMayUse(p, i);
    assert MayUse(View(BookAfter(p.rows[..i]).own), p.rows[i], k);
  }

  predicate IsLive(b: Book, lineage: nat, k: Key) {
    k in b.own && b.own[k].state == LIVE && b.own[k].lineage == lineage
  }

  /** No cloning: after every row of an accepted program, no lineage is live under two keys. */
  lemma NoLineageIsLiveTwice(p: Program, i: nat, lineage: nat, j: Key, k: Key)
    requires Accepted(p) && i <= |p.rows|
    requires IsLive(BookAfter(p.rows[..i]), lineage, j) && IsLive(BookAfter(p.rows[..i]), lineage, k)
    ensures j == k
  {
    PrefixRuns(p, i);
    var m := ViewOf(BookAfter(p.rows[..i]));
    assert HoldsToken(m, j, lineage) && HoldsToken(m, k, lineage);
  }

  /** A lineage that was handed out and is live nowhere is never live again: what is measured, released or
      overwritten is gone for good. */
  lemma LostLineageStaysLost(p: Program, i: nat, l: nat, lineage: nat, k: Key)
    requires Accepted(p) && i <= l <= |p.rows|
    requires lineage <= BookAfter(p.rows[..i]).lineages
    requires forall j :: !IsLive(BookAfter(p.rows[..i]), lineage, j)
    ensures !IsLive(BookAfter(p.rows[..l]), lineage, k)
  {
    PrefixRuns(p, i);
    PrefixRuns(p, l);
    RunKeeps(p.rows[..l], i);
    assert p.rows[..l][..i] == p.rows[..i];
    assert forall j :: HoldsToken(ViewOf(BookAfter(p.rows[..i])), j, lineage) ==>
           IsLive(BookAfter(p.rows[..i]), lineage, j);
    assert !Present(ViewOf(BookAfter(p.rows[..i])), lineage);
    assert IsLive(BookAfter(p.rows[..l]), lineage, k) ==> HoldsToken(ViewOf(BookAfter(p.rows[..l])), k, lineage);
  }

  /** In an accepted program a row that is no preparation, protocol or measurement records nothing new: the
      verifier's branch for new outputs is dead. */
  lemma OutputsAreNeverFirstRecordedHere(p: Program, i: nat)
    requires Accepted(p) && i < |p.rows| && Operates(p.rows[i])
    requires !IsDestructive(p.rows[i].op) && !IsDistributed(p.rows[i].op)
    ensures BookAfter(p.rows[..i + 1]).own.Keys == BookAfter(p.rows[..i]).own.Keys
    ensures ViewOf(BookAfter(p.rows[..i + 1])) == ViewOf(BookAfter(p.rows[..i]))
  {
    RowMayUse(p, i);
    PrefixRuns(p, i);
    RunsNext(p.rows, i);
    TouchAgrees(BookAfter(p.rows[..i]), p.rows[i]);
  }
}
