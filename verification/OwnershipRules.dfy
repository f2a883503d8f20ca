/** The ownership rules in terms of the rows alone: which objects a row refers to, what becomes of each of them, and
    which programs are in order. None of it is stated through the verifier's own tables of keys and operations. */
module OwnershipRules {
  import opened Common
  import opened Prefixes
  import opened Catalog
  import opened Text
  import opened OwnershipVerifier
  import opened LinearMachine

  // ----- Operations by name -----

  predicate Prepares(op: Op) {
    op in {PREP0, PREP1, PREP_PLUS, PREP_MINUS, PREP_BASIS, PREP_STATE, RESET}
  }

  predicate Measures(op: Op) {
    op in {MEASURE, MEASURE_Z, MEASURE_X, MEASURE_Y, MEASURE_BASIS, POVM, REMOTE_MEASURE}
  }

  predicate Links(op: Op) {
    op in {ENTANGLE_LINK, EPR_RESERVE}
  }

  predicate OneQubit(op: Op) {
    op in {I, X, Y, Z, H, S, SDG, T, TDG, RX, RY, RZ, PHASE, U}
  }

  predicate TwoQubit(op: Op) {
    op in {CX, CNOT, CY, CZ, CH, SWAP, ISWAP}
  }

  predicate ThreeQubit(op: Op) {
    op in {CSWAP, CCX, TOFFOLI}
  }

  predicate Controls(op: Op) {
    op in {CX, CNOT, CY, CZ, CH, CSWAP, CCX, TOFFOLI, CU, MCU}
  }

  predicate Noisy(op: Op) {
    op in {DEPOLARIZE, DEPHASE, BIT_FLIP, PHASE_FLIP, AMPLITUDE_DAMP, PHASE_DAMP, PAULI_CHANNEL, KRAUS_CHANNEL,
           READOUT_ERROR, LEAKAGE_MODEL, CROSSTALK_MODEL}
  }

  predicate Crosses(op: Op) {
    op in {ENTANGLE_LINK, EPR_RESERVE, EPR_RELEASE, TELEPORT, REMOTE_CONTROL, REMOTE_CNOT, REMOTE_MEASURE,
           CLASSICAL_FEEDBACK, ENTANGLEMENT_SWAP, PURIFY, HERALD, SYNC_QCLOCK, QCHANNEL_SEND, QCHANNEL_RECEIVE}
  }

  predicate Declares(op: Op) {
    op in {DECLARE_NODE, DECLARE_DOMAIN, DECLARE_LINK, DECLARE_TOPOLOGY, DECLARE_FEDERATION, NOTE, EMIT_LEDGER, CLAIM,
           ASSERT_INVARIANT}
  }

  predicate IsGate(op: Op) {
    OneQubit(op) || TwoQubit(op) || ThreeQubit(op)
  }

  lemma PreparesIs(op: Op)
    ensures IsReinit(op) <==> Prepares(op)
  {
  }

  lemma MeasuresIs(op: Op)
    ensures IsDestructive(op) <==> Measures(op)
  {
  }

  lemma NoisyIs(op: Op)
    ensures IsNoise(op) <==> Noisy(op)
  {
  }

  lemma DeclaresIs(op: Op)
    ensures IsDeclaration(op) <==> Declares(op)
  {
  }

  lemma LinksIs(op: Op)
    ensures IsEntangling(op) <==> Links(op)
  {
  }

  lemma ControlsIs(op: Op)
    ensures IsControlled(op) <==> Controls(op)
  {
  }

  lemma CrossesIs(op: Op)
    ensures IsDistributed(op) <==> Crosses(op)
  {
  }

  lemma OneQubitIs(op: Op)
    ensures Arity(op) == Some(1) <==> OneQubit(op)
  {
  }

  lemma FewQubitIs(op: Op)
    ensures Arity(op) == Some(2) <==> TwoQubit(op)
    ensures Arity(op) == Some(3) <==> ThreeQubit(op)
  {
  }

  lemma ArityIs(op: Op)
    ensures Arity(op) == if OneQubit(op) then Some(1) else if TwoQubit(op) then Some(2)
                         else if ThreeQubit(op) then Some(3) else None
  {
    OneQubitIs(op);
    FewQubitIs(op);
    ArityIsSmall(op);
  }

  lemma ArityIsSmall(op: Op)
    ensures Arity(op).Some? ==> 1 <= Arity(op).value <= 3
  {
  }

  /** The classes of operations that decide what a row does to its objects. */
  lemma ClassesOf(op: Op)
    ensures IsReinit(op) <==> Prepares(op)
    ensures IsDestructive(op) <==> Measures(op)
    ensures IsEntangling(op) <==> Links(op)
    ensures IsDeclaration(op) <==> Declares(op)
    ensures IsDistributed(op) <==> Crosses(op)
  {
    PreparesIs(op);
    MeasuresIs(op);
    LinksIs(op);
    DeclaresIs(op);
    CrossesIs(op);
  }

  // ----- What a row refers to -----

  /** A name refers to the whole object, an index to one part of it, and a range to its parts from lo up to hi. */
  predicate RefersTo(c: Cell, k: Key) {
    && c.ref.Some? && !k.Raw? && k.name == c.ref.value.name
    && var r := c.ref.value;
       if r.lo == None then k.Whole?
       else k.Indexed? && if r.hi == None then k.index == r.lo.value else r.lo.value <= k.index < r.hi.value
  }

  lemma KeysAreReferredTo(c: Cell, k: Key)
    ensures k in Keys(c) <==> RefersTo(c, k)
  {
    if c.ref.Some? && c.ref.value.lo.Some? && c.ref.value.hi.Some? {
      var r := c.ref.value;
      var keys := KeyRange(r.name, r.lo.value, r.hi.value);
      if RefersTo(c, k) {
        assert keys[k.index - r.lo.value] == k;
      }
    }
  }

  /** The row has the object among its operands or outputs. */
  predicate Mentions(r: Row, k: Key) {
    RefersTo(r.ctrl, k) || RefersTo(r.a, k) || RefersTo(r.b, k) || RefersTo(r.out, k)
  }

  lemma UsesAreMentions(r: Row, k: Key)
    ensures k in Uses(r) <==> Mentions(r, k)
  {
    KeysAreReferredTo(r.ctrl, k);
    KeysAreReferredTo(r.a, k);
    KeysAreReferredTo(r.b, k);
    KeysAreReferredTo(r.out, k);
    assert k in Uses(r) <==> k in Reads(r) + Writes(r);
  }

  /** No object at all: the cell is no reference, or a range with nothing in it. */
  predicate RefersToNothing(c: Cell) {
    c.ref == None || (c.ref.value.lo.Some? && c.ref.value.hi.Some? && c.ref.value.hi.value <= c.ref.value.lo.value)
  }

  lemma NothingHasNoKeys(c: Cell)
    ensures RefersToNothing(c) <==> Keys(c) == []
  {
  }

  // ----- New objects -----

  /** Objects made anew: the outputs of a preparation, or its output text where that refers to nothing, and the outputs
      of a link. */
  predicate Fills(r: Row, k: Key) {
    || ((Prepares(r.op) || Links(r.op)) && RefersTo(r.out, k))
    || (Prepares(r.op) && RefersToNothing(r.out) && r.out.text != NULL_CELL && k == Raw(r.out.text))
  }

  /** A record made by this row, under a lineage first handed out here. */
  predicate IsNew(b: Book, r: Row, after: Book, k: Key) {
    && k in after.own && b.lineages < after.own[k].lineage <= after.lineages
    && after.own[k] == OwnershipRecord(after.own[k].lineage, LIVE, r.node, r.domain, r.id)
  }

  predicate SameRecord(b: Book, after: Book, k: Key) {
    (k in after.own <==> k in b.own) && (k in b.own ==> after.own[k] == b.own[k])
  }

  predicate HasLineage(b: Book, k: Key, lineage: nat) {
    k in b.own && b.own[k].lineage == lineage
  }

  lemma {:induction false} FreshActs(b: Book, r: Row, keys: seq<Key>)
    requires LinearMachine.NoRepeats(keys)
    ensures var after := FreshAll(b, r, keys);
            && after.lineages == b.lineages + |keys|
            && (forall k :: k in keys ==> IsNew(b, r, after, k))
            && (forall k :: k !in keys ==> SameRecord(b, after, k))
            && forall j, k, n :: j in keys && k in keys && HasLineage(after, j, n) && HasLineage(after, k, n) ==> j == k
    decreases |keys|
  {
    if keys != [] {
      var before, last := keys[..|keys| - 1], keys[|keys| - 1];
      FreshActs(b, r, before);
      assert keys == before + [last];
      var mid, after := FreshAll(b, r, before), FreshAll(b, r, keys);
      forall j, k, n | j in keys && k in keys && HasLineage(after, j, n) && HasLineage(after, k, n)
        ensures j == k
      {
        if j != last && k != last {
          assert HasLineage(mid, j, n) && HasLineage(mid, k, n);
        }
      }
    }
  }

  lemma WritesOfPreparation(r: Row)
    requires IsReinit(r.op)
    ensures Writes(r) == Keys(r.out)
  {
    assert Keys(r.out) + [] == Keys(r.out);
  }

  lemma PreparedAreFilled(r: Row, k: Key)
    requires IsReinit(r.op)
    ensures k in Prepared(r) <==> Fills(r, k)
    ensures LinearMachine.NoRepeats(Prepared(r))
  {
    WritesOfPreparation(r);
    ClassesOf(r.op);
    KeysAreReferredTo(r.out, k);
    NothingHasNoKeys(r.out);
    if Keys(r.out) != [] {
      assert Keys(r.out)[0] in Distinct(Keys(r.out));
    } else {
      assert Distinct(Keys(r.out)) == [];
    }
  }

  /** What every row that makes objects does: each is live, at the row's node, under a lineage of its own that was never
      handed out before; no other record changes. */
  ghost predicate Renews(b: Book, r: Row, after: Book) {
    && (forall k :: Fills(r, k) ==> IsNew(b, r, after, k))
    && (forall k :: !Fills(r, k) ==> SameRecord(b, after, k))
    && (forall j, k, n :: Fills(r, j) && Fills(r, k) && HasLineage(after, j, n) && HasLineage(after, k, n) ==> j == k)
  }

  lemma PreparationRenews(b: Book, r: Row)
    requires !Unreadable(r) && Prepares(r.op)
    ensures Renews(b, r, RowBook(b, r))
  {
    ClassesOf(r.op);
    forall k
      ensures k in Prepared(r) <==> Fills(r, k)
    {
      PreparedAreFilled(r, k);
    }
    PreparedAreFilled(r, Raw(""));
    FreshActs(b, r, Prepared(r));
  }

  lemma LinkRenews(b: Book, r: Row)
    requires !Unreadable(r) && Links(r.op)
    ensures Renews(b, r, RowBook(b, r))
  {
    ClassesOf(r.op);
    forall k
      ensures k in Keys(r.out) <==> Fills(r, k)
    {
      KeysAreReferredTo(r.out, k);
    }
    OperandKeysDistinct(r.out);
    FreshActs(b, r, Keys(r.out));
  }

  // ----- Measurement and release -----

  /** What a measurement consumes: its A operand, or its control where A is no reference. */
  predicate Consumes(r: Row, k: Key) {
    Measures(r.op) && if r.a.ref.Some? then RefersTo(r.a, k) else RefersTo(r.ctrl, k)
  }

  predicate Becomes(b: Book, r: Row, after: Book, k: Key, state: State) {
    k in b.own && k in after.own && after.own[k] == b.own[k].(state := state, lastRow := r.id)
  }

  lemma {:induction false} MarkActs(own: Owners, r: Row, keys: seq<Key>, state: State, k: Key)
    ensures var after := MarkAll(own, r, keys, state);
            && (k in after <==> k in own)
            && (k in own ==> after[k] == if k in keys then own[k].(state := state, lastRow := r.id) else own[k])
    decreases |keys|
  {
    if keys != [] {
      var before, last := keys[..|keys| - 1], keys[|keys| - 1];
      assert keys == before + [last];
      MarkActs(own, r, before, state, k);
    }
  }

  /** A measurement: the recorded objects it consumes are measured, and nothing else moves. */
  lemma MeasurementConsumes(b: Book, r: Row, k: Key)
    requires !Unreadable(r) && Measures(r.op)
    ensures RowBook(b, r).lineages == b.lineages
    ensures if Consumes(r, k) && k in b.own then Becomes(b, r, RowBook(b, r), k, MEASURED)
            else SameRecord(b, RowBook(b, r), k)
  {
    ClassesOf(r.op);
    KeysAreReferredTo(r.a, k);
    KeysAreReferredTo(r.ctrl, k);
    MarkActs(b.own, r, Measured(r), MEASURED, k);
  }

  lemma {:induction false} ReleaseActs(own: Owners, r: Row, keys: seq<Key>, k: Key)
    ensures var after := Release(own, r, keys);
            && (k in after <==> k in own)
            && (k in own ==> after[k] == if k in keys && own[k].state != RELEASED
                                         then own[k].(state := RELEASED, lastRow := r.id) else own[k])
    decreases |keys|
  {
    if keys != [] {
      var before, last := keys[..|keys| - 1], keys[|keys| - 1];
      assert keys == before + [last];
      ReleaseActs(own, r, before, k);
    }
  }

  lemma ReleaseIs(b: Book, r: Row)
    requires !Unreadable(r) && r.op == EPR_RELEASE
    ensures RowBook(b, r) == b.(own := Release(b.own, r, Keys(r.a)))
  {
    assert RowBook(b, r) == Effect(b, r);
    assert !IsDestructive(r.op) && !IsEntangling(r.op);
  }

  /** A release: the recorded objects of its A operand are released, and nothing else moves. */
  lemma ReleaseReleases(b: Book, r: Row, k: Key)
    requires !Unreadable(r) && r.op == EPR_RELEASE
    ensures RowBook(b, r).lineages == b.lineages
    ensures if RefersTo(r.a, k) && k in b.own && b.own[k].state != RELEASED
            then Becomes(b, r, RowBook(b, r), k, RELEASED) else SameRecord(b, RowBook(b, r), k)
  {
    ReleaseIs(b, r);
    KeysAreReferredTo(r.a, k);
    ReleaseActs(b.own, r, Keys(r.a), k);
  }

  // ----- Teleportation -----

  /** How many objects a cell refers to, the i-th of them, and the place of one among them. */
  function Size(c: Cell): nat {
    if c.ref == None then 0
    else if c.ref.value.lo == None || c.ref.value.hi == None then 1
    else if c.ref.value.lo.value < c.ref.value.hi.value then c.ref.value.hi.value - c.ref.value.lo.value
    else 0
  }

  function Nth(c: Cell, i: nat): Key
    requires i < Size(c)
  {
    var r := c.ref.value;
    if r.lo == None then Whole(r.name) else Indexed(r.name, r.lo.value + i)
  }

  function Place(c: Cell, k: Key): nat
    requires RefersTo(c, k)
  {
    if c.ref.value.lo == None then 0 else k.index - c.ref.value.lo.value
  }

  lemma NthIs(c: Cell)
    ensures |Keys(c)| == Size(c)
    ensures forall i :: 0 <= i < Size(c) ==> Keys(c)[i] == Nth(c, i)
  {
  }

  lemma PlaceOfNth(c: Cell, i: nat)
    requires i < Size(c)
    ensures RefersTo(c, Nth(c, i)) && Place(c, Nth(c, i)) == i
  {
  }

  lemma NthOfPlace(c: Cell, k: Key)
    requires RefersTo(c, k)
    ensures Place(c, k) < Size(c) && Nth(c, Place(c, k)) == k
  {
  }

  /** Objects are moved in pairs, as far as the shorter operand goes. */
  function Pairs(r: Row): nat {
    if Size(r.a) < Size(r.out) then Size(r.a) else Size(r.out)
  }

  /** Among the first n moves the object is a source, or a destination. */
  predicate Leaves(r: Row, n: nat, k: Key) {
    RefersTo(r.a, k) && Place(r.a, k) < n
  }

  predicate Arrives(r: Row, n: nat, k: Key) {
    RefersTo(r.out, k) && Place(r.out, k) < n
  }

  /** The lineage that move i carries: what an earlier move brought to its source, or what was there before. */
  function Carried(b: Book, r: Row, i: nat): nat
    requires i < Pairs(r)
    decreases i
  {
    var source := Nth(r.a, i);
    if Arrives(r, i, source) then
      NthOfPlace(r.out, source);
      Carried(b, r, Place(r.out, source))
    else if source in b.own then b.own[source].lineage
    else 0
  }

  /** Every source is there when it is moved. */
  ghost predicate SourcesThere(b: Book, r: Row, n: nat) {
    forall i :: 0 <= i < n && i < Size(r.a) ==> Nth(r.a, i) in b.own || Arrives(r, i, Nth(r.a, i))
  }

  /** After n moves: where an object arrived, and did not leave later, it is live at the row's node under the lineage
      brought there; otherwise what left is moved, and all else is as it was. */
  predicate MovesOne(b: Book, r: Row, after: Book, n: nat, k: Key)
    requires n <= Pairs(r)
  {
    if Arrives(r, n, k) && !(Leaves(r, n, k) && Place(r.a, k) > Place(r.out, k)) then
      k in after.own && after.own[k] == OwnershipRecord(Carried(b, r, Place(r.out, k)), LIVE, r.node, r.domain, r.id)
    else if Arrives(r, n, k) then
      k in after.own && after.own[k] == OwnershipRecord(Carried(b, r, Place(r.out, k)), MOVED, r.node, r.domain, r.id)
    else if Leaves(r, n, k) then Becomes(b, r, after, k, MOVED)
    else SameRecord(b, after, k)
  }

  ghost predicate MovesAll(b: Book, r: Row, after: Book, n: nat)
    requires n <= Pairs(r)
  {
    forall k :: MovesOne(b, r, after, n, k)
  }

  lemma MovesAre(r: Row)
    ensures |Moves(r)| == Pairs(r)
    ensures forall i :: 0 <= i < Pairs(r) ==> Moves(r)[i] == (Nth(r.a, i), Nth(r.out, i))
  {
    NthIs(r.a);
    NthIs(r.out);
  }

  lemma TeleportsNext(b: Book, r: Row, moves: seq<(Key, Key)>, m: nat)
    requires m < |moves|
    ensures TeleportAll(b, r, moves[..m + 1]) == Teleport(TeleportAll(b, r, moves[..m]), r, moves[m])
  {
    assert moves[..m + 1][..m] == moves[..m];
  }

  lemma {:induction false} TeleportsUpTo(b: Book, r: Row, n: nat)
    requires n <= Pairs(r) && SourcesThere(b, r, n)
    ensures n <= |Moves(r)| && TeleportAll(b, r, Moves(r)[..n]).lineages == b.lineages
    ensures MovesAll(b, r, TeleportAll(b, r, Moves(r)[..n]), n)
  {
    MovesAre(r);
    if n > 0 {
      var m := n - 1;
      TeleportsUpTo(b, r, m);
      TeleportsNext(b, r, Moves(r), m);
      OneMoreTeleport(b, r, TeleportAll(b, r, Moves(r)[..m]), m, n);
    }
  }

  lemma OneMoreTeleport(b: Book, r: Row, mid: Book, m: nat, n: nat)
    requires n == m + 1 <= Pairs(r) && SourcesThere(b, r, n) && MovesAll(b, r, mid, m)
    ensures MovesAll(b, r, Teleport(mid, r, (Nth(r.a, m), Nth(r.out, m))), n)
  {
    var s, d := Nth(r.a, m), Nth(r.out, m);
    PlaceOfNth(r.a, m);
    PlaceOfNth(r.out, m);
    assert MovesOne(b, r, mid, m, s);
    assert s in mid.own && mid.own[s].lineage == Carried(b, r, m);
    var after := Teleport(mid, r, (s, d));
    forall k
      ensures MovesOne(b, r, after, n, k)
    {
      OneMoreFor(b, r, mid, m, k);
    }
  }

  lemma OneMoreFor(b: Book, r: Row, mid: Book, m: nat, k: Key)
    requires m < Pairs(r) && MovesOne(b, r, mid, m, k)
    requires Nth(r.a, m) in mid.own && mid.own[Nth(r.a, m)].lineage == Carried(b, r, m)
    ensures MovesOne(b, r, Teleport(mid, r, (Nth(r.a, m), Nth(r.out, m))), m + 1, k)
  {
    PlaceOfNth(r.a, m);
    PlaceOfNth(r.out, m);
    if RefersTo(r.a, k) {
      NthOfPlace(r.a, k);
    }
    if RefersTo(r.out, k) {
      NthOfPlace(r.out, k);
    }
  }

  /** A teleportation with operands and a link moves every pair; without them it moves nothing. */
  predicate Moving(r: Row) {
    r.op == TELEPORT && r.a.ref.Some? && r.out.ref.Some? && r.link != NULL_CELL
  }

  lemma TeleportMoves(b: Book, r: Row)
    requires !Unreadable(r) && Moving(r) && SourcesThere(b, r, Pairs(r))
    ensures RowBook(b, r).lineages == b.lineages && MovesAll(b, r, RowBook(b, r), Pairs(r))
  {
    TeleportIs(b, r);
    MovesAre(r);
    TeleportsUpTo(b, r, Pairs(r));
    assert Moves(r)[..Pairs(r)] == Moves(r);
  }

  lemma TeleportIs(b: Book, r: Row)
    requires !Unreadable(r) && Moving(r)
    ensures RowBook(b, r) == TeleportAll(b, r, Moves(r))
  {
    assert RowBook(b, r) == Effect(b, r);
    TeleportEffectIs(b, r);
  }

  lemma TeleportEffectIs(b: Book, r: Row)
    requires Moving(r)
    ensures Effect(b, r) == TeleportAll(b, r, Moves(r))
  {
    assert Teleports(r) && !IsDestructive(r.op);
  }

  // ----- Every other row -----

  /** The object must be quantum: the row's type says so, or its name does under a preparation, gate or channel. */
  predicate MustBeQuantum(r: Row, k: Key) {
    || r.kind.Owned?
    || ((Prepares(r.op) || IsGate(r.op) || Noisy(r.op)) && !k.Raw?
        && ("q" <= k.name || "anc" <= k.name || "ebit" <= k.name || "psi" <= k.name || "rho" <= k.name
           || "log" <= k.name))
  }

  lemma LooksQuantumIs(r: Row, k: Key)
    ensures LooksQuantum(r, k) <==> MustBeQuantum(r, k)
  {
    PreparesIs(r.op);
    NoisyIs(r.op);
    ArityIs(r.op);
  }

  /** The record is as it was but for the row that touched it last. */
  predicate OnlyTouched(b: Book, after: Book, k: Key) {
    (k in after.own <==> k in b.own) && (k in b.own ==> after.own[k] == b.own[k].(lastRow := after.own[k].lastRow))
  }

  ghost predicate OnlyTouches(b: Book, after: Book) {
    after.lineages == b.lineages && forall k :: OnlyTouched(b, after, k)
  }

  lemma {:induction false} TouchActs(b: Book, r: Row, keys: seq<Key>, k: Key)
    requires forall x :: x in keys ==> x in b.own || !LooksQuantum(r, x)
    ensures TouchAll(b, r, keys).own.Keys == b.own.Keys
    ensures TouchAll(b, r, keys).lineages == b.lineages && OnlyTouched(b, TouchAll(b, r, keys), k)
    decreases |keys|
  {
    if keys != [] {
      var before, last := keys[..|keys| - 1], keys[|keys| - 1];
      assert keys == before + [last];
      TouchActs(b, r, before, k);
      TouchActs(b, r, before, last);
    }
  }

  lemma AllTouched(b: Book, r: Row, keys: seq<Key>)
    requires forall x :: x in keys ==> x in b.own || !LooksQuantum(r, x)
    ensures OnlyTouches(b, TouchAll(b, r, keys))
  {
    var after := TouchAll(b, r, keys);
    TouchActs(b, r, keys, Raw(""));
    forall k
      ensures OnlyTouched(b, after, k)
    {
      TouchActs(b, r, keys, k);
    }
  }

  predicate Plain(r: Row) {
    !Prepares(r.op) && !Measures(r.op) && !Links(r.op) && r.op != EPR_RELEASE && !Moving(r)
  }

  lemma PlainRowIs(b: Book, r: Row)
    requires !Unreadable(r) && !IsDeclaration(r.op) && Plain(r)
    ensures RowBook(b, r) == if IsDistributed(r.op) then b else TouchAll(b, r, Distinct(Writes(r)))
  {
    PreparesIs(r.op);
    MeasuresIs(r.op);
    LinksIs(r.op);
  }

  lemma PlainRowTouches(b: Book, r: Row)
    requires !Unreadable(r) && !IsDeclaration(r.op) && Plain(r)
    requires forall k :: Mentions(r, k) ==> k in b.own || !MustBeQuantum(r, k)
    ensures OnlyTouches(b, RowBook(b, r))
  {
    PlainRowIs(b, r);
    forall k | k in Distinct(Writes(r))
      ensures k in b.own || !LooksQuantum(r, k)
    {
      assert k in Uses(r);
      UsesAreMentions(r, k);
      LooksQuantumIs(r, k);
    }
    AllTouched(b, r, Distinct(Writes(r)));
  }

  // ----- Which programs are in order -----

  /** The row may work on the object: it is live and here, or the operation crosses nodes; or it is no quantum
      object. */
  predicate MayTouch(b: Book, r: Row, k: Key) {
    if k in b.own then
      b.own[k].state == LIVE && (b.own[k].node == NULL_CELL || b.own[k].node == r.node || Crosses(r.op))
    else !MustBeQuantum(r, k)
  }

  /** A row that works on objects: it may touch all it mentions, and those it moves or releases are recorded. */
  ghost predicate OwnershipInOrder(b: Book, r: Row) {
    && (forall k :: Mentions(r, k) ==> MayTouch(b, r, k))
    && (Moving(r) ==> SourcesThere(b, r, Pairs(r)))
    && (r.op == EPR_RELEASE ==> forall k :: RefersTo(r.a, k) ==> k in b.own)
  }

  /** An earlier row that was looked at declares the name. */
  predicate Declared(rows: seq<Row>, i: nat, op: Op, name: string)
    requires i <= |rows|
  {
    exists j :: 0 <= j < i && rows[j].face.Known? && rows[j].op == op && rows[j].out.text == name
  }

  /** An earlier measurement wrote its result under this name. */
  predicate ResultNamed(rows: seq<Row>, i: nat, name: string)
    requires i <= |rows|
  {
    exists j :: 0 <= j < i && rows[j].face.Known? && Measures(rows[j].op) && rows[j].out.text == name
  }

  predicate WordsInOrder(r: Row) {
    && r.face.Known? && !r.op.UnknownOp? && !r.regime.Unknown? && !r.kind.UnknownType? && !r.family.Unknown?
    && (r.confidence.Some? ==> 0.0 <= r.confidence.value <= 1.0)
  }

  /** Nodes and links named were declared before, and so was the domain of a row that names no node. */
  predicate PlacesInOrder(rows: seq<Row>, i: nat)
    requires i < |rows|
  {
    var r := rows[i];
    && (r.node != NULL_CELL ==> Declared(rows, i, DECLARE_NODE, r.node))
    && (r.domain != NULL_CELL && r.node == NULL_CELL ==> Declared(rows, i, DECLARE_DOMAIN, r.domain))
    && (r.link != NULL_CELL ==> Declared(rows, i, DECLARE_LINK, r.link))
  }

  ghost predicate Apart(x: Cell, y: Cell) {
    forall k :: !(RefersTo(x, k) && RefersTo(y, k))
  }

  function Operands(r: Row): nat {
    Size(r.ctrl) + Size(r.a) + Size(r.b)
  }

  /** A gate has as many operands as qubits and its angle, no control is its own target, and noise has probabilities. */
  ghost predicate GatesInOrder(r: Row) {
    && (OneQubit(r.op) ==> Operands(r) == 1)
    && (TwoQubit(r.op) ==> Operands(r) == 2)
    && (ThreeQubit(r.op) ==> Operands(r) == 3)
    && (r.op in {RX, RY, RZ, PHASE, U} ==> r.params != [])
    && (Controls(r.op) ==> Apart(r.ctrl, r.a))
    && (Noisy(r.op) ==> forall i :: 0 <= i < |r.params| ==> 0.0 <= r.params[i] <= 1.0)
  }

  /** No object is tensored or merged with itself; protocols have their operands and links; a classical condition was
      measured before; noise and approximations are not called exact. */
  ghost predicate ProtocolsInOrder(rows: seq<Row>, i: nat)
    requires i < |rows|
  {
    var r := rows[i];
    && (r.op in {TENSOR, MERGE} ==> Apart(r.a, r.b))
    && (r.op == TELEPORT ==> Moving(r))
    && (r.op in {ENTANGLE_LINK, EPR_RESERVE, REMOTE_CNOT, REMOTE_CONTROL} ==> r.link != NULL_CELL)
    && (r.op in {CLASSICAL_IF, CLASSICAL_SWITCH, FEEDBACK, CLASSICAL_FEEDBACK} ==>
          var name := if r.ctrl.text != NULL_CELL then r.ctrl.text else r.a.text;
          name != NULL_CELL && ResultNamed(rows, i, name))
    && (r.regime in {Known("EXACT"), Known("EXACT_LINEAR"), Known("PIECEWISE_EXACT")} ==> !Noisy(r.op) && !r.approx)
  }

  /** Everything a row must have in order beside the ownership of its objects. */
  ghost predicate RowInOrder(rows: seq<Row>, i: nat)
    requires i < |rows|
  {
    var r := rows[i];
    && WordsInOrder(r)
    && (!Declares(r.op) ==>
          && PlacesInOrder(rows, i) && GatesInOrder(r)
          && (!Prepares(r.op) ==> ProtocolsInOrder(rows, i)))
  }

  lemma ClassUnit(bad: bool, code: Code, rest: seq<Code>)
    requires code != W_PROTO_005
    ensures Clean(If(bad, code) + rest) <==> !bad && Clean(rest)
  {
    CleanIf(bad, code);
    CleanJoin(If(bad, code), rest);
  }

  lemma SchemaIs(r: Row)
    ensures Clean(SchemaCodes(r)) <==> WordsInOrder(r)
  {
    if r.face.Known? {
      var t, f, c := If(r.kind.UnknownType?, E_TYPE_001), If(r.family.Unknown?, E_FAM_001),
                     If(r.confidence.Some? && !(0.0 <= r.confidence.value <= 1.0), E_CONF_001);
      ClassUnit(r.regime.Unknown?, E_REG_001, if r.op.UnknownOp? then [E_OP_001] else t + f + c);
      if r.op.UnknownOp? {
        assert E_OP_001 in [E_OP_001];
      } else {
        CleanJoin(t + f, c);
        CleanJoin(t, f);
        CleanIf(r.kind.UnknownType?, E_TYPE_001);
        CleanIf(r.family.Unknown?, E_FAM_001);
        CleanIf(r.confidence.Some? && !(0.0 <= r.confidence.value <= 1.0), E_CONF_001);
      }
    } else {
      assert E_FACE_001 in SchemaCodes(r);
    }
  }

  /** The names known before row i are those the earlier rows declared and measured. */
  ghost predicate NamesAre(n: Names, rows: seq<Row>, i: nat)
    requires i <= |rows|
  {
    forall x :: NameIs(n, rows, i, x)
  }

  predicate NameIs(n: Names, rows: seq<Row>, i: nat, x: string)
    requires i <= |rows|
  {
    && (x in n.nodes <==> Declared(rows, i, DECLARE_NODE, x))
    && (x in n.domains <==> Declared(rows, i, DECLARE_DOMAIN, x))
    && (x in n.links <==> Declared(rows, i, DECLARE_LINK, x))
    && (x in n.bits <==> x != NULL_CELL && ResultNamed(rows, i, x))
  }

  lemma DeclaredNext(rows: seq<Row>, i: nat, op: Op, x: string)
    requires i < |rows|
    ensures Declared(rows, i + 1, op, x) <==>
            Declared(rows, i, op, x) || (rows[i].face.Known? && rows[i].op == op && rows[i].out.text == x)
  {
  }

  lemma ResultNext(rows: seq<Row>, i: nat, x: string)
    requires i < |rows|
    ensures ResultNamed(rows, i + 1, x) <==>
            ResultNamed(rows, i, x) || (rows[i].face.Known? && Measures(rows[i].op) && rows[i].out.text == x)
  {
  }

  lemma NameNext(n: Names, rows: seq<Row>, i: nat, m: nat, x: string)
    requires m == i + 1 <= |rows| && NameIs(n, rows, i, x)
    ensures NameIs(NextNames(n, rows[i]), rows, m, x)
  {
    DeclaredNext(rows, i, DECLARE_NODE, x);
    DeclaredNext(rows, i, DECLARE_DOMAIN, x);
    DeclaredNext(rows, i, DECLARE_LINK, x);
    ResultNext(rows, i, x);
    MeasuresIs(rows[i].op);
    NextName(n, rows[i], x);
  }

  /** What one row adds to the names. */
  lemma NextName(n: Names, r: Row, x: string)
    ensures var m := NextNames(n, r);
            && (x in m.nodes <==> x in n.nodes || (r.face.Known? && r.op == DECLARE_NODE && r.out.text == x))
            && (x in m.domains <==> x in n.domains || (r.face.Known? && r.op == DECLARE_DOMAIN && r.out.text == x))
            && (x in m.links <==> x in n.links || (r.face.Known? && r.op == DECLARE_LINK && r.out.text == x))
            && (x in m.bits <==>
                x in n.bits || (r.face.Known? && IsDestructive(r.op) && r.out.text == x && x != NULL_CELL))
  {
  }

  lemma {:induction false} NamesAfterAre(rows: seq<Row>, i: nat)
    requires i <= |rows|
    ensures NamesAre(NamesAfter(rows[..i]), rows, i)
  {
    if i > 0 {
      var j := i - 1;
      NamesAfterAre(rows, j);
      assert rows[..i][..j] == rows[..j];
      NamesNext(NamesAfter(rows[..j]), rows, j, i);
    }
  }

  lemma NamesNext(n: Names, rows: seq<Row>, i: nat, m: nat)
    requires m == i + 1 <= |rows| && NamesAre(n, rows, i)
    ensures NamesAre(NextNames(n, rows[i]), rows, m)
  {
    var next := NextNames(n, rows[i]);
    forall x
      ensures NameIs(next, rows, m, x)
    {
      NameNext(n, rows, i, m, x);
    }
  }

  lemma ReferencesAre(n: Names, rows: seq<Row>, i: nat)
    requires i < |rows| && NamesAre(n, rows, i)
    ensures Clean(ReferenceCodes(n, rows[i])) <==> PlacesInOrder(rows, i)
  {
    var r := rows[i];
    assert NameIs(n, rows, i, r.node) && NameIs(n, rows, i, r.domain) && NameIs(n, rows, i, r.link);
    var x, y := r.node != NULL_CELL && r.node !in n.nodes, r.domain != NULL_CELL && r.domain !in n.domains
      && r.node == NULL_CELL;
    var z := r.link != NULL_CELL && r.link !in n.links;
    CleanJoin(If(x, E_NODE_001) + If(y, E_DOM_001), If(z, E_LINK_001));
    ClassUnit(x, E_NODE_001, If(y, E_DOM_001));
    CleanIf(y, E_DOM_001);
    CleanIf(z, E_LINK_001);
  }

  lemma MeetsUnlessApart(x: Cell, y: Cell)
    ensures Meet(x, y) <==> !Apart(x, y)
  {
    forall k
      ensures k in Keys(x) <==> RefersTo(x, k)
      ensures k in Keys(y) <==> RefersTo(y, k)
    {
      KeysAreReferredTo(x, k);
      KeysAreReferredTo(y, k);
    }
  }

  lemma {:induction false} ProbabilitiesAre(params: seq<real>)
    ensures Clean(BadProbabilities(params)) <==> forall i :: 0 <= i < |params| ==> 0.0 <= params[i] <= 1.0
    decreases |params|
  {
    if params != [] {
      ProbabilitiesAre(params[1..]);
      ClassUnit(!(0.0 <= params[0] <= 1.0), E_PROB_001, BadProbabilities(params[1..]));
      assert params == [params[0]] + params[1..];
    }
  }

  lemma OperandsAre(r: Row)
    ensures |Keys(r.ctrl)| + |Keys(r.a)| + |Keys(r.b)| == Operands(r)
  {
    NthIs(r.ctrl);
    NthIs(r.a);
    NthIs(r.b);
  }

  /** The arity and angle of a gate, on their own. */
  predicate ShapeInOrder(r: Row) {
    && (OneQubit(r.op) ==> Operands(r) == 1)
    && (TwoQubit(r.op) ==> Operands(r) == 2)
    && (ThreeQubit(r.op) ==> Operands(r) == 3)
    && (r.op in {RX, RY, RZ, PHASE, U} ==> r.params != [])
  }

  function ShapeCodes(r: Row): seq<Code> {
    if Arity(r.op).Some? then
      If(|Keys(r.ctrl)| + |Keys(r.a)| + |Keys(r.b)| != Arity(r.op).value, E_ARITY_001) +
      If(IsParametric(r.op) && r.params == [], E_PARAM_001)
    else []
  }

  lemma ShapesAre(r: Row)
    ensures Clean(ShapeCodes(r)) <==> ShapeInOrder(r)
  {
    ArityIs(r.op);
    OperandsAre(r);
    if Arity(r.op).Some? {
      ClassUnit(Operands(r) != Arity(r.op).value, E_ARITY_001, If(IsParametric(r.op) && r.params == [], E_PARAM_001));
      CleanIf(IsParametric(r.op) && r.params == [], E_PARAM_001);
    }
  }

  lemma GatesAre(r: Row)
    ensures Clean(GateCodes(r)) <==> GatesInOrder(r)
  {
    var bad := IsControlled(r.op) && Meet(r.ctrl, r.a);
    var noise := if IsNoise(r.op) then BadProbabilities(r.params) else [];
    ShapesAre(r);
    CleanJoin(ShapeCodes(r) + If(bad, E_CTRL_001), noise);
    CleanJoin(ShapeCodes(r), If(bad, E_CTRL_001));
    CleanIf(bad, E_CTRL_001);
    ControlsIs(r.op);
    MeetsUnlessApart(r.ctrl, r.a);
    NoisyIs(r.op);
    ProbabilitiesAre(r.params);
  }

  lemma ClonesAre(r: Row)
    ensures Clean(CloneCodes(r)) <==> (r.op in {TENSOR, MERGE} ==> Apart(r.a, r.b))
  {
    CleanIf((r.op.TENSOR? || r.op.MERGE?) && Meet(r.a, r.b), E_CLONE_001);
    MeetsUnlessApart(r.a, r.b);
  }

  lemma ProtocolsAre(r: Row)
    ensures Clean(ProtocolCodes(r)) <==>
            (r.op == TELEPORT ==> Moving(r))
            && (r.op in {ENTANGLE_LINK, EPR_RESERVE, REMOTE_CNOT, REMOTE_CONTROL} ==> r.link != NULL_CELL)
  {
    var t := if r.op.TELEPORT? then
               if r.a.ref == None || r.out.ref == None then [E_PROTO_001] else If(r.link == NULL_CELL, E_PROTO_002)
             else [];
    var e, g := IsEntangling(r.op) && r.link == NULL_CELL, IsRemoteGate(r.op) && r.link == NULL_CELL;
    CleanJoin(t + If(e, E_EPR_001), If(g, E_PROTO_004));
    CleanJoin(t, If(e, E_EPR_001));
    CleanIf(e, E_EPR_001);
    CleanIf(g, E_PROTO_004);
    CleanIf(r.link == NULL_CELL, E_PROTO_002);
    assert E_PROTO_001 in [E_PROTO_001];
  }

  lemma ConditionsAre(n: Names, rows: seq<Row>, i: nat)
    requires i < |rows| && NamesAre(n, rows, i)
    ensures Clean(ControlCodes(n, rows[i])) <==>
            (rows[i].op in {CLASSICAL_IF, CLASSICAL_SWITCH, FEEDBACK, CLASSICAL_FEEDBACK} ==>
               var name := if rows[i].ctrl.text != NULL_CELL then rows[i].ctrl.text else rows[i].a.text;
               name != NULL_CELL && ResultNamed(rows, i, name))
  {
    assert NameIs(n, rows, i, Condition(rows[i]));
    CleanIf(Condition(rows[i]) !in n.bits, E_CTL_003);
    assert E_CTL_002 in [E_CTL_002];
  }

  lemma HonestyIs(r: Row)
    ensures Clean(HonestyCodes(r)) <==>
            (r.regime in {Known("EXACT"), Known("EXACT_LINEAR"), Known("PIECEWISE_EXACT")} ==>
              !Noisy(r.op) && !r.approx)
  {
    NoisyIs(r.op);
    ClassUnit(ClaimsExact(r) && IsNoise(r.op), E_REG_002, If(ClaimsExact(r) && r.approx, E_REG_003));
    CleanIf(ClaimsExact(r) && r.approx, E_REG_003);
  }

  lemma OperationChecksAre(n: Names, rows: seq<Row>, i: nat)
    requires i < |rows| && NamesAre(n, rows, i)
    ensures var r := rows[i];
            Clean(CloneCodes(r) + ProtocolCodes(r) + ControlCodes(n, r) + HonestyCodes(r)) <==>
              ProtocolsInOrder(rows, i)
  {
    var r := rows[i];
    var c, p, k, h := CloneCodes(r), ProtocolCodes(r), ControlCodes(n, r), HonestyCodes(r);
    CleanJoin(c + p + k, h);
    CleanJoin(c + p, k);
    CleanJoin(c, p);
    ClonesAre(r);
    ProtocolsAre(r);
    ConditionsAre(n, rows, i);
    HonestyIs(r);
  }

  lemma OtherChecksAre(n: Names, rows: seq<Row>, i: nat)
    requires i < |rows| && NamesAre(n, rows, i)
    ensures Clean(OtherCodes(n, rows[i])) <==> RowInOrder(rows, i)
  {
    var r := rows[i];
    SchemaIs(r);
    PreparesIs(r.op);
    DeclaresIs(r.op);
    if !Unreadable(r) && !IsDeclaration(r.op) {
      var f, g := ReferenceCodes(n, r), GateCodes(r);
      var x := if IsReinit(r.op) then [] else CloneCodes(r) + ProtocolCodes(r) + ControlCodes(n, r) + HonestyCodes(r);
      CleanJoin(SchemaCodes(r), f + g + x);
      CleanJoin(f + g, x);
      CleanJoin(f, g);
      ReferencesAre(n, rows, i);
      GatesAre(r);
      OperationChecksAre(n, rows, i);
    } else {
      assert SchemaCodes(r) + [] == SchemaCodes(r);
    }
  }

  lemma SoundNext(rows: seq<Row>, i: nat)
    requires i < |rows|
    ensures Clean(OtherCodes(NamesAfter(rows[..i]), rows[i])) <==> RowInOrder(rows, i)
    ensures RowInOrder(rows, i) ==> !Unreadable(rows[i])
  {
    NamesAfterAre(rows, i);
    OtherChecksAre(NamesAfter(rows[..i]), rows, i);
  }

  ghost function InOrderAt(rows: seq<Row>): nat -> bool {
    (i: nat) => i < |rows| && RowInOrder(rows, i)
  }

  ghost function SoundUpTo(rows: seq<Row>): nat -> bool {
    (i: nat) => i <= |rows| && OtherwiseSound(rows[..i])
  }

  lemma SoundExtends(rows: seq<Row>, i: nat)
    requires i < |rows|
    ensures Extends(SoundUpTo(rows), InOrderAt(rows), i, i + 1)
  {
    assert rows[..i + 1][..i] == rows[..i];
    SoundNext(rows, i);
  }

  ghost predicate RowsInOrder(rows: seq<Row>) {
    forall i: nat :: i < |rows| ==> InOrderAt(rows)(i)
  }

  lemma SoundIsInOrder(rows: seq<Row>)
    ensures OtherwiseSound(rows) <==> RowsInOrder(rows)
  {
    forall i: nat, m: nat | i < |rows| && m == i + 1
      ensures Extends(SoundUpTo(rows), InOrderAt(rows), i, m)
    {
      SoundExtends(rows, i);
    }
    AllOf(SoundUpTo(rows), InOrderAt(rows), |rows|);
    assert rows[..|rows|] == rows;
  }

  // ----- Acceptance, in these terms -----

  predicate Works(r: Row) {
    !Unreadable(r) && !Declares(r.op) && !Prepares(r.op)
  }

  lemma {:induction false} UsesAreClean(own: Owners, r: Row, keys: seq<Key>)
    ensures Clean(AllUseCodes(own, r, keys)) <==> forall k :: k in keys ==> Clean(UseCodes(own, r, k))
    decreases |keys|
  {
    if keys != [] {
      var before, last := keys[..|keys| - 1], keys[|keys| - 1];
      assert keys == before + [last];
      UsesAreClean(own, r, before);
      CleanJoin(AllUseCodes(own, r, before), UseCodes(own, r, last));
    }
  }

  lemma UseIsTouch(b: Book, r: Row, k: Key)
    ensures Clean(UseCodes(b.own, r, k)) <==> MayTouch(b, r, k)
  {
    CrossesIs(r.op);
    LooksQuantumIs(r, k);
    var codes := UseCodes(b.own, r, k);
    assert codes != [] ==> codes[0] in codes && codes[0] != W_PROTO_005;
  }

  ghost predicate MayTouchAll(b: Book, r: Row) {
    forall k :: Mentions(r, k) ==> MayTouch(b, r, k)
  }

  lemma UsesAreTouches(b: Book, r: Row)
    ensures Clean(AllUseCodes(b.own, r, Uses(r))) <==> MayTouchAll(b, r)
  {
    UsesAreClean(b.own, r, Uses(r));
    forall k
      ensures k in Uses(r) <==> Mentions(r, k)
      ensures Clean(UseCodes(b.own, r, k)) <==> MayTouch(b, r, k)
    {
      UsesAreMentions(r, k);
      UseIsTouch(b, r, k);
    }
  }

  lemma TeleportCodesNext(b: Book, r: Row, moves: seq<(Key, Key)>, m: nat)
    requires m < |moves|
    ensures Clean(TeleportCodes(b, r, moves[..m + 1])) <==>
            Clean(TeleportCodes(b, r, moves[..m])) && moves[m].0 in TeleportAll(b, r, moves[..m]).own
  {
    assert moves[..m + 1][..m] == moves[..m];
    CleanJoin(TeleportCodes(b, r, moves[..m]), If(moves[m].0 !in TeleportAll(b, r, moves[..m]).own, E_PROTO_003));
    CleanIf(moves[m].0 !in TeleportAll(b, r, moves[..m]).own, E_PROTO_003);
  }

  lemma SourcesNext(b: Book, r: Row, m: nat, n: nat)
    requires n == m + 1 <= Pairs(r)
    ensures SourcesThere(b, r, n) <==> SourcesThere(b, r, m) && (Nth(r.a, m) in b.own || Arrives(r, m, Nth(r.a, m)))
  {
  }

  lemma SourceIsThere(b: Book, r: Row, mid: Book, m: nat)
    requires m < Pairs(r) && MovesAll(b, r, mid, m)
    ensures Nth(r.a, m) in mid.own <==> Nth(r.a, m) in b.own || Arrives(r, m, Nth(r.a, m))
  {
    PlaceOfNth(r.a, m);
    assert MovesOne(b, r, mid, m, Nth(r.a, m));
  }

  lemma {:induction false} TeleportsAreClean(b: Book, r: Row, n: nat)
    requires n <= Pairs(r)
    ensures n <= |Moves(r)| && (Clean(TeleportCodes(b, r, Moves(r)[..n])) <==> SourcesThere(b, r, n))
  {
    MovesAre(r);
    if n > 0 {
      var m := n - 1;
      TeleportsAreClean(b, r, m);
      TeleportCodesNext(b, r, Moves(r), m);
      SourcesNext(b, r, m, n);
      if SourcesThere(b, r, m) {
        TeleportsUpTo(b, r, m);
        SourceIsThere(b, r, TeleportAll(b, r, Moves(r)[..m]), m);
      }
    }
  }

  lemma MovingIs(r: Row)
    ensures Teleports(r) <==> Moving(r)
  {
  }

  lemma ReleasesAreClean(b: Book, r: Row)
    requires r.op == EPR_RELEASE && MayTouchAll(b, r)
    ensures Clean(ReleaseCodes(b.own, r, Keys(r.a))) <==> forall k :: RefersTo(r.a, k) ==> k in b.own
  {
    forall k
      ensures k in Keys(r.a) <==> RefersTo(r.a, k)
    {
      KeysAreReferredTo(r.a, k);
    }
    OperandKeysDistinct(r.a);
    forall k | k in Keys(r.a) && k in b.own
      ensures b.own[k].state == LIVE
    {
      assert Mentions(r, k);
      assert MayTouch(b, r, k);
    }
    ReleaseFaultless(b.own, r, Keys(r.a));
  }

  lemma EffectsAreClean(b: Book, r: Row)
    requires MayTouchAll(b, r)
    ensures Clean(EffectCodes(b, r)) <==>
            (Moving(r) ==> SourcesThere(b, r, Pairs(r)))
              && (r.op == EPR_RELEASE ==> forall k :: RefersTo(r.a, k) ==> k in b.own)
  {
    MovingIs(r);
    if Moving(r) {
      MovesAre(r);
      TeleportsAreClean(b, r, Pairs(r));
      assert Moves(r)[..Pairs(r)] == Moves(r);
    } else if r.op == EPR_RELEASE {
      ReleasesAreClean(b, r);
    }
  }

  lemma OwnershipIsClean(b: Book, r: Row)
    ensures Clean(AllUseCodes(b.own, r, Uses(r))) && Clean(EffectCodes(b, r)) <==> OwnershipInOrder(b, r)
  {
    UsesAreTouches(b, r);
    if MayTouchAll(b, r) {
      EffectsAreClean(b, r);
    }
  }

  ghost function OwnershipAt(rows: seq<Row>): nat -> bool {
    (i: nat) => i < |rows| && (Works(rows[i]) ==> OwnershipInOrder(BookAfter(rows[..i]), rows[i]))
  }

  ghost function AllAt(rows: seq<Row>): nat -> bool {
    (i: nat) => InOrderAt(rows)(i) && OwnershipAt(rows)(i)
  }

  ghost function CleanUpTo(rows: seq<Row>): nat -> bool {
    (i: nat) => i <= |rows| && Clean(CodesAfter(rows[..i]))
  }

  lemma RowIsClean(rows: seq<Row>, i: nat)
    requires i < |rows|
    ensures Clean(RowCodes(NamesAfter(rows[..i]), BookAfter(rows[..i]), rows[i])) <==> AllAt(rows)(i)
  {
    var n, b, r := NamesAfter(rows[..i]), BookAfter(rows[..i]), rows[i];
    RowCodesSplit(n, b, r);
    SoundNext(rows, i);
    DeclaresIs(r.op);
    PreparesIs(r.op);
    OwnershipIsClean(b, r);
    assert InOrderAt(rows)(i) <==> RowInOrder(rows, i);
    assert OwnershipAt(rows)(i) <==> (Works(r) ==> OwnershipInOrder(b, r));
  }

  lemma CodesNext(rows: seq<Row>, i: nat)
    requires i < |rows|
    ensures Clean(CodesAfter(rows[..i + 1])) <==>
            Clean(CodesAfter(rows[..i])) && Clean(RowCodes(NamesAfter(rows[..i]), BookAfter(rows[..i]), rows[i]))
  {
    assert rows[..i + 1][..i] == rows[..i];
    CleanJoin(CodesAfter(rows[..i]), RowCodes(NamesAfter(rows[..i]), BookAfter(rows[..i]), rows[i]));
  }

  lemma CleanExtends(rows: seq<Row>, i: nat)
    requires i < |rows|
    ensures Extends(CleanUpTo(rows), AllAt(rows), i, i + 1)
  {
    CodesNext(rows, i);
    RowIsClean(rows, i);
  }

  /** A program is accepted exactly when network and backend are shut off, every row is in order, and every row that
      works on objects finds them as it must, given what the rows before did to them. */
  lemma AcceptedIffInOrder(p: Program)
    ensures Accepted(p) <==>
            && p.network == "deny" && p.backend == "none"
            && (forall i: nat :: i < |p.rows| ==> InOrderAt(p.rows)(i))
            && (forall i: nat :: i < |p.rows| ==> OwnershipAt(p.rows)(i))
  {
    var rows := p.rows;
    forall i: nat, m: nat | i < |rows| && m == i + 1
      ensures Extends(CleanUpTo(rows), AllAt(rows), i, m)
    {
      CleanExtends(rows, i);
    }
    AllOf(CleanUpTo(rows), AllAt(rows), |rows|);
    assert rows[..|rows|] == rows;
    CleanJoin(PolicyCodes(p), CodesAfter(rows));
    ClassUnit(p.network != "deny", E_POL_001, If(p.backend != "none", E_POL_002));
    CleanIf(p.backend != "none", E_POL_002);
    assert forall i: nat :: AllAt(rows)(i) <==> InOrderAt(rows)(i) && OwnershipAt(rows)(i);
  }

  lemma AcceptedRowIsInOrder(p: Program, i: nat)
    requires Accepted(p) && i < |p.rows|
    ensures RowInOrder(p.rows, i) && !Unreadable(p.rows[i])
    ensures Works(p.rows[i]) ==> OwnershipInOrder(BookAfter(p.rows[..i]), p.rows[i])
  {
    AcceptedIffInOrder(p);
    assert InOrderAt(p.rows)(i) && OwnershipAt(p.rows)(i);
  }

  // ----- What a row of an accepted program does -----

  /** The state an object is left in, and what else may change of its record. */
  ghost predicate ActsOn(b: Book, r: Row, after: Book, k: Key) {
    if Prepares(r.op) || Links(r.op) then (if Fills(r, k) then IsNew(b, r, after, k) else SameRecord(b, after, k))
    else if Measures(r.op) then
      (if Consumes(r, k) && k in b.own then Becomes(b, r, after, k, MEASURED) else SameRecord(b, after, k))
    else if r.op == EPR_RELEASE then
      (if RefersTo(r.a, k) then Becomes(b, r, after, k, RELEASED) else SameRecord(b, after, k))
    else if r.op == TELEPORT then MovesOne(b, r, after, Pairs(r), k)
    else OnlyTouched(b, after, k)
  }

  lemma SameIsTouched(b: Book, k: Key)
    ensures SameRecord(b, b, k) && OnlyTouched(b, b, k)
  {
  }

  lemma ReleasedAll(b: Book, r: Row, k: Key)
    requires !Unreadable(r) && r.op == EPR_RELEASE && OwnershipInOrder(b, r)
    ensures if RefersTo(r.a, k) then Becomes(b, r, RowBook(b, r), k, RELEASED) else SameRecord(b, RowBook(b, r), k)
  {
    ReleaseReleases(b, r, k);
    if RefersTo(r.a, k) {
      assert Mentions(r, k) && MayTouch(b, r, k);
    }
  }

  lemma WorkedRowActs(b: Book, r: Row, k: Key)
    requires !Unreadable(r) && Works(r) && OwnershipInOrder(b, r) && (r.op == TELEPORT ==> Moving(r))
    ensures ActsOn(b, r, RowBook(b, r), k)
  {
    DeclaresIs(r.op);
    if Links(r.op) {
      LinkRenews(b, r);
    } else if Measures(r.op) {
      MeasurementConsumes(b, r, k);
    } else if r.op == EPR_RELEASE {
      ReleasedAll(b, r, k);
    } else if r.op == TELEPORT {
      TeleportMoves(b, r);
    } else {
      TouchesIfInOrder(b, r, k);
    }
  }

  lemma TouchesIfInOrder(b: Book, r: Row, k: Key)
    requires !Unreadable(r) && !IsDeclaration(r.op) && Plain(r) && MayTouchAll(b, r)
    ensures OnlyTouched(b, RowBook(b, r), k)
  {
    forall x | Mentions(r, x)
      ensures x in b.own || !MustBeQuantum(r, x)
    {
      assert MayTouch(b, r, x);
    }
    PlainRowTouches(b, r);
  }

  /** Every row of an accepted program does to every object what its operation says: makes it anew, measures it,
      releases it, moves it, or leaves it as it was. */
  lemma AcceptedRowActs(p: Program, i: nat, k: Key)
    requires Accepted(p) && i < |p.rows|
    ensures ActsOn(BookAfter(p.rows[..i]), p.rows[i], BookAfter(p.rows[..i + 1]), k)
  {
    var b, r := BookAfter(p.rows[..i]), p.rows[i];
    AcceptedRowIsInOrder(p, i);
    assert p.rows[..i + 1][..i] == p.rows[..i];
    DeclaresIs(r.op);
    if Declares(r.op) {
      SameIsTouched(b, k);
    } else if Prepares(r.op) {
      PreparationRenews(b, r);
    } else {
      WorkedRowActs(b, r, k);
    }
  }

  // ----- What is gone stays gone until it is made again -----

  /** Recorded and not live: measured, moved or released. */
  predicate Gone(b: Book, k: Key) {
    k in b.own && b.own[k].state != LIVE
  }

  /** The row makes the object anew, or a teleportation brings one to its place. */
  predicate Restores(r: Row, k: Key) {
    Fills(r, k) || (Moving(r) && Arrives(r, Pairs(r), k))
  }

  lemma GoneAfterActs(b: Book, r: Row, after: Book, k: Key)
    requires ActsOn(b, r, after, k) && Gone(b, k) && !Restores(r, k) && (r.op == TELEPORT ==> Moving(r))
    ensures Gone(after, k)
  {
  }

  lemma MentionedIsLive(b: Book, r: Row, k: Key)
    requires OwnershipInOrder(b, r) && Mentions(r, k)
    ensures !Gone(b, k)
  {
    assert MayTouch(b, r, k);
  }

  lemma GoneAfterRow(p: Program, i: nat, k: Key)
    requires Accepted(p) && i < |p.rows| && Gone(BookAfter(p.rows[..i]), k) && !Restores(p.rows[i], k)
    ensures Gone(BookAfter(p.rows[..i + 1]), k)
  {
    AcceptedRowActs(p, i, k);
    TeleportsMove(p, i);
    GoneAfterActs(BookAfter(p.rows[..i]), p.rows[i], BookAfter(p.rows[..i + 1]), k);
  }

  lemma TeleportsMove(p: Program, i: nat)
    requires Accepted(p) && i < |p.rows|
    ensures p.rows[i].op == TELEPORT ==> Moving(p.rows[i])
  {
    AcceptedRowIsInOrder(p, i);
  }

  lemma {:induction false} GoneStaysGone(p: Program, i: nat, l: nat, k: Key)
    requires Accepted(p) && i <= l <= |p.rows| && Gone(BookAfter(p.rows[..i]), k)
    requires forall j :: i <= j < l ==> !Restores(p.rows[j], k)
    ensures Gone(BookAfter(p.rows[..l]), k)
    decreases l
  {
    if i < l {
      GoneStaysGone(p, i, l - 1, k);
      GoneAfterRow(p, l - 1, k);
    }
  }

  /** In an accepted program an object that was measured, moved or released is in no later row that works on objects,
      until a row makes it anew. */
  lemma GoneIsNotUsed(p: Program, i: nat, l: nat, k: Key)
    requires Accepted(p) && i <= l < |p.rows| && Gone(BookAfter(p.rows[..i]), k)
    requires forall j :: i <= j < l ==> !Restores(p.rows[j], k)
    ensures Works(p.rows[l]) ==> !Mentions(p.rows[l], k)
  {
    GoneStaysGone(p, i, l, k);
    AcceptedRowIsInOrder(p, l);
    if Works(p.rows[l]) && Mentions(p.rows[l], k) {
      MentionedIsLive(BookAfter(p.rows[..l]), p.rows[l], k);
    }
  }

  /** What is gone from the records is gone from the machine. */
  lemma GoneIsSpent(p: Program, i: nat, k: Key)
    requires Accepted(p) && i <= |p.rows| && Gone(BookAfter(p.rows[..i]), k)
    ensures Run(p.rows[..i]).Some? && k in Run(p.rows[..i]).value.slots && Run(p.rows[..i]).value.slots[k] == Spent
  {
    PrefixRuns(p, i);
  }

  /** So a measurement is final: what it consumes is measured in the records, its place on the machine is empty, and no
      row that works on objects has it again before a row makes it anew. */
  lemma MeasurementIsFinal(p: Program, i: nat, l: nat, k: Key)
    requires Accepted(p) && i < |p.rows| && Consumes(p.rows[i], k) && k in BookAfter(p.rows[..i]).own
    requires i < l <= |p.rows| && forall j :: i < j < l ==> !Restores(p.rows[j], k)
    ensures k in BookAfter(p.rows[..i + 1]).own && BookAfter(p.rows[..i + 1]).own[k].state == MEASURED
    ensures Run(p.rows[..i + 1]).Some? && k in Run(p.rows[..i + 1]).value.slots
            && Run(p.rows[..i + 1]).value.slots[k] == Spent
    ensures l < |p.rows| && Works(p.rows[l]) ==> !Mentions(p.rows[l], k)
  {
    AcceptedRowIsInOrder(p, i);
    MeasurementConsumes(BookAfter(p.rows[..i]), p.rows[i], k);
    assert p.rows[..i + 1][..i] == p.rows[..i];
    GoneIsSpent(p, i + 1, k);
    if l < |p.rows| {
      GoneIsNotUsed(p, i + 1, l, k);
    }
  }
}
