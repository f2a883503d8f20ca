/** Composing declared error terms, over exact reals: which law applies, what it computes, and when composition is
    left unresolved with the dimensions kept apart. The square root is a parameter. */
module ErrorAlgebra {
  import opened Common

  datatype Unit = PROBABILITY | LOG_PROBABILITY | DIMENSIONLESS | SECOND | HERTZ | PLAIN_COUNT | RADIAN

  datatype Kind = SUCCESS_PROBABILITY | FAILURE_PROBABILITY | INFIDELITY | LOG_SUCCESS | ADDITIVE_ERROR
                | VARIANCE | STD_DEV | DURATION | RATE | COUNT

  datatype Domain = GATE | READOUT | IDLE | ROUTE | LINK | ENTANGLEMENT | CLASSICAL | COMPILER | SAMPLING | MODEL

  datatype Assumption = INDEPENDENT | CORRELATED | UNKNOWN_CORRELATION | SMALL_ERROR | EXACT_MULTIPLICATIVE
                      | EXACT_LOGARITHMIC

  datatype ErrorTerm = ErrorTerm(
    name: string, value: real, unit: Unit, domain: Domain, kind: Kind, independence: Assumption,
    correlation: map<string, real>, epoch: Option<int>, lo: Option<real>, hi: Option<real>,
    confidence: Option<real>, variance: Option<real>, provenance: string)

  /** What construction of a term insists on. */
  predicate Valid(t: ErrorTerm) {
    && (t.unit == PROBABILITY ==> 0.0 <= t.value <= 1.0)
    && (t.confidence.Some? ==> 0.0 <= t.confidence.value <= 1.0)
    && (t.lo.Some? && t.hi.Some? ==> t.lo.value <= t.hi.value)
  }

  datatype Law = L1 | L2 | L3 | L4 | L5 | L6

  datatype Exactness = EXACT | APPROXIMATE | UNRESOLVED

  datatype Dimension = Dimension(unit: Unit, kind: Kind)

  datatype Composition = Composition(
    combined: Option<ErrorTerm>, law: Option<Law>, exactness: Exactness,
    dimensions: map<Dimension, seq<ErrorTerm>>, neglected: Option<real>)

  /** No terms were given, a negative variance has no deviation, or the result is no valid term. */
  datatype Misuse = NoTerms | NoDeviation | BadTerm

  // ----- The law registry -----

  predicate AppliesTo(law: Law, kind: Kind) {
    match law
    case L1 => kind.SUCCESS_PROBABILITY? || kind.FAILURE_PROBABILITY? || kind.INFIDELITY?
    case L2 => kind.LOG_SUCCESS?
    case L3 => kind.ADDITIVE_ERROR? || kind.INFIDELITY? || kind.FAILURE_PROBABILITY?
    case L4 => kind.VARIANCE? || kind.STD_DEV?
    case L5 => kind.VARIANCE? || kind.STD_DEV?
    case L6 => kind.DURATION?
  }

  function Required(law: Law): Assumption {
    match law
    case L3 => SMALL_ERROR
    case L5 => CORRELATED
    case _ => INDEPENDENT
  }

  predicate Covers(law: Law, kind: Kind, assumption: Assumption) {
    AppliesTo(law, kind) && Required(law) == assumption
  }

  const LAWS := [L1, L2, L3, L4, L5, L6]

  /** The first law in registry order; at most one ever covers a kind under an assumption. */
  method LawFor(kind: Kind, assumption: Assumption) returns (law: Option<Law>)
    ensures law == TheLaw(kind, assumption)
    ensures law.Some? ==> Covers(law.value, kind, assumption)
    ensures forall l :: Covers(l, kind, assumption) ==> law == Some(l)
  {
    for i := 0 to |LAWS|
      invariant forall k :: 0 <= k < i ==> !Covers(LAWS[k], kind, assumption)
    {
      if Covers(LAWS[i], kind, assumption) {
        return Some(LAWS[i]);
      }
    }
    assert LAWS[0] == L1 && LAWS[1] == L2 && LAWS[2] == L3 && LAWS[3] == L4 && LAWS[4] == L5 && LAWS[5] == L6;
    return None;
  }

  function TheLaw(kind: Kind, assumption: Assumption): Option<Law> {
    if Covers(L1, kind, assumption) then Some(L1)
    else if Covers(L2, kind, assumption) then Some(L2)
    else if Covers(L3, kind, assumption) then Some(L3)
    else if Covers(L4, kind, assumption) then Some(L4)
    else if Covers(L5, kind, assumption) then Some(L5)
    else if Covers(L6, kind, assumption) then Some(L6)
    else None
  }

  function ExactnessOf(law: Law): Exactness {
    if law == L3 then APPROXIMATE else EXACT
  }

  // ----- Dimensions -----

  function DimensionOf(t: ErrorTerm): Dimension {
    Dimension(t.unit, t.kind)
  }

  function OfDimension(terms: seq<ErrorTerm>, d: Dimension): seq<ErrorTerm> {
    if terms == [] then []
    else OfDimension(terms[..|terms| - 1], d) +
         if DimensionOf(terms[|terms| - 1]) == d then [terms[|terms| - 1]] else []
  }

  function Dimensions(terms: seq<ErrorTerm>): set<Dimension> {
    set t | t in terms :: DimensionOf(t)
  }

  /** Each dimension with its own terms, in order. */
  function Groups(terms: seq<ErrorTerm>): map<Dimension, seq<ErrorTerm>> {
    map d | d in Dimensions(terms) :: OfDimension(terms, d)
  }

  predicate SameDimension(terms: seq<ErrorTerm>) {
    forall i :: 0 <= i < |terms| ==> DimensionOf(terms[i]) == DimensionOf(terms[0])
  }

  method GroupDimensions(terms: seq<ErrorTerm>) returns (groups: map<Dimension, seq<ErrorTerm>>)
    ensures groups == Groups(terms)
    ensures terms != [] ==> (|groups| > 1 <==> !SameDimension(terms))
  {
    groups := map[];
    for i := 0 to |terms|
      invariant groups == Groups(terms[..i])
    {
      var t, d := terms[i], DimensionOf(terms[i]);
      GroupsGrow(terms[..i], t);
      assert terms[..i + 1] == terms[..i] + [t];
      groups := groups[d := (if d in groups then groups[d] else []) + [t]];
    }
    assert terms[..|terms|] == terms;
    if terms != [] {
      ManyGroups(terms);
    }
  }

  lemma {:induction false} NoneOfDimension(terms: seq<ErrorTerm>, d: Dimension)
    requires d !in Dimensions(terms)
    ensures OfDimension(terms, d) == []
    decreases |terms|
  {
    if terms != [] {
      var before := terms[..|terms| - 1];
      assert terms[|terms| - 1] in terms && forall t :: t in before ==> t in terms;
      NoneOfDimension(before, d);
    }
  }

  function Grown(groups: map<Dimension, seq<ErrorTerm>>, t: ErrorTerm): map<Dimension, seq<ErrorTerm>> {
    var d := DimensionOf(t);
    groups[d := (if d in groups then groups[d] else []) + [t]]
  }

  lemma DimensionsGrow(terms: seq<ErrorTerm>, t: ErrorTerm)
    ensures Dimensions(terms + [t]) == Dimensions(terms) + {DimensionOf(t)}
  {
    assert forall x :: x in terms + [t] <==> x in terms || x == t;
  }

  lemma GroupGrows(terms: seq<ErrorTerm>, t: ErrorTerm, d: Dimension)
    ensures OfDimension(terms + [t], d) == OfDimension(terms, d) + if DimensionOf(t) == d then [t] else []
  {
    assert (terms + [t])[..|terms|] == terms;
  }

  lemma GroupsGrow(terms: seq<ErrorTerm>, t: ErrorTerm)
    ensures Groups(terms + [t]) == Grown(Groups(terms), t)
  {
    DimensionsGrow(terms, t);
    var now_, grown := Groups(terms + [t]), Grown(Groups(terms), t);
    assert now_.Keys == grown.Keys;
    forall d | d in grown
      ensures now_[d] == grown[d]
    {
      GroupGrows(terms, t, d);
      if d !in Dimensions(terms) {
        NoneOfDimension(terms, d);
      }
    }
  }

  lemma ManyGroups(terms: seq<ErrorTerm>)
    requires terms != []
    ensures |Groups(terms)| > 1 <==> !SameDimension(terms)
  {
    var first := DimensionOf(terms[0]);
    var dims := Groups(terms).Keys;
    assert dims == Dimensions(terms) && terms[0] in terms;
    if SameDimension(terms) {
      assert dims == {first};
    } else {
      var i :| 0 <= i < |terms| && DimensionOf(terms[i]) != first;
      assert terms[i] in terms;
      var two := {first, DimensionOf(terms[i])};
      assert two <= dims && |two| == 2;
      SmallerSet(two, dims);
    }
  }

  lemma {:induction false} SmallerSet(a: set<Dimension>, b: set<Dimension>)
    requires a <= b
    ensures |a| <= |b|
    decreases |a|
  {
    if a != {} {
      var x :| x in a;
      SmallerSet(a - {x}, b - {x});
    }
  }

  // ----- What the terms have in common -----

  datatype Epochs = NoEpoch | OneEpoch(epoch: int) | ManyEpochs

  function JoinEpochs(a: Epochs, b: Epochs): Epochs {
    if a.NoEpoch? then b else if b.NoEpoch? || a == b then a else ManyEpochs
  }

  function EpochOf(t: ErrorTerm): Epochs {
    if t.epoch.Some? then OneEpoch(t.epoch.value) else NoEpoch
  }

  function EpochsOf(terms: seq<ErrorTerm>): Epochs {
    if terms == [] then NoEpoch else JoinEpochs(EpochsOf(terms[..|terms| - 1]), EpochOf(terms[|terms| - 1]))
  }

  function LeastConfidence(a: Option<real>, b: Option<real>): Option<real> {
    if a.None? then b else if b.None? || a.value <= b.value then a else b
  }

  function Confidence(terms: seq<ErrorTerm>): Option<real> {
    if terms == [] then None else LeastConfidence(Confidence(terms[..|terms| - 1]), terms[|terms| - 1].confidence)
  }

  predicate ClaimsIndependence(t: ErrorTerm) {
    t.independence in {INDEPENDENT, EXACT_MULTIPLICATIVE, EXACT_LOGARITHMIC, SMALL_ERROR}
  }

  predicate SameDomain(terms: seq<ErrorTerm>) {
    forall i :: 0 <= i < |terms| ==> terms[i].domain == terms[0].domain
  }

  function JoinNames(terms: seq<ErrorTerm>): string {
    if terms == [] then ""
    else if |terms| == 1 then terms[0].name
    else JoinNames(terms[..|terms| - 1]) + "+" + terms[|terms| - 1].name
  }

  // ----- The laws -----

  function Success(t: ErrorTerm): real {
    if t.kind == SUCCESS_PROBABILITY then t.value else 1.0 - t.value
  }

  function Product(terms: seq<ErrorTerm>): real {
    if terms == [] then 1.0 else Product(terms[..|terms| - 1]) * Success(terms[|terms| - 1])
  }

  function Sum(terms: seq<ErrorTerm>): real {
    if terms == [] then 0.0 else Sum(terms[..|terms| - 1]) + terms[|terms| - 1].value
  }

  function VarianceOf(t: ErrorTerm): real {
    if t.kind == VARIANCE then t.value else t.value * t.value
  }

  function SumOfVariances(terms: seq<ErrorTerm>): real {
    if terms == [] then 0.0 else SumOfVariances(terms[..|terms| - 1]) + VarianceOf(terms[|terms| - 1])
  }

  function Deviation(root: real -> real, t: ErrorTerm): real {
    if t.kind == VARIANCE then root(t.value) else t.value
  }

  predicate HaveDeviations(terms: seq<ErrorTerm>) {
    forall t :: t in terms && t.kind == VARIANCE ==> t.value >= 0.0
  }

  function SumOfSquares(root: real -> real, terms: seq<ErrorTerm>): real {
    if terms == [] then 0.0 else
    var s := Deviation(root, terms[|terms| - 1]);
    SumOfSquares(root, terms[..|terms| - 1]) + s * s
  }

  /** The correlation of a pair: the earlier term's word for it, or else the later one's. */
  function Correlation(a: ErrorTerm, b: ErrorTerm): Option<real> {
    if b.name in a.correlation then Some(a.correlation[b.name])
    else if a.name in b.correlation then Some(b.correlation[a.name])
    else None
  }

  predicate AllCorrelated(terms: seq<ErrorTerm>) {
    forall i, j :: 0 <= i < j < |terms| ==> Correlation(terms[i], terms[j]).Some?
  }

  function CrossTerm(root: real -> real, a: ErrorTerm, b: ErrorTerm): real {
    match Correlation(a, b)
    case None => 0.0
    case Some(rho) => 2.0 * rho * Deviation(root, a) * Deviation(root, b)
  }

  /** The cross terms of one term with the later ones up to index n. */
  function CrossRow(root: real -> real, terms: seq<ErrorTerm>, i: nat, n: nat): real
    requires i < n <= |terms|
    decreases n
  {
    if n == i + 1 then 0.0 else CrossRow(root, terms, i, n - 1) + CrossTerm(root, terms[i], terms[n - 1])
  }

  /** The cross terms of the first i terms with every later one. */
  function Cross(root: real -> real, terms: seq<ErrorTerm>, i: nat): real
    requires i <= |terms|
  {
    if i == 0 then 0.0 else Cross(root, terms, i - 1) + CrossRow(root, terms, i - 1, |terms|)
  }

  function Magnitude(x: real): real {
    if x < 0.0 then -x else x
  }

  function ExactFailure(terms: seq<ErrorTerm>): real {
    1.0 - Product(terms)
  }

  function LawValue(root: real -> real, law: Law, terms: seq<ErrorTerm>): real
    requires terms != []
  {
    match law
    case L1 => if terms[0].kind == SUCCESS_PROBABILITY then Product(terms) else 1.0 - Product(terms)
    case L2 => Sum(terms)
    case L3 => Sum(terms)
    case L4 => SumOfVariances(terms)
    case L5 => SumOfSquares(root, terms) + Cross(root, terms, |terms|)
    case L6 => Sum(terms)
  }

  // ----- Composition -----

  function Unresolved(terms: seq<ErrorTerm>, law: Option<Law>, neglected: Option<real>): Composition {
    Composition(None, law, UNRESOLVED, Groups(terms), neglected)
  }

  function Source(law: Law): string {
    match law
    case L1 => "law:L1" case L2 => "law:L2" case L3 => "law:L3"
    case L4 => "law:L4" case L5 => "law:L5" case L6 => "law:L6"
  }

  function OutKind(law: Law, kind: Kind): Kind {
    if law == L4 || law == L5 then VARIANCE else kind
  }

  function OutUnit(law: Law, unit: Unit): Unit {
    if (law == L4 || law == L5) && unit == PROBABILITY then DIMENSIONLESS else unit
  }

  function Combined(root: real -> real, law: Law, assumption: Assumption, terms: seq<ErrorTerm>): ErrorTerm
    requires terms != []
  {
    ErrorTerm(JoinNames(terms), LawValue(root, law, terms), OutUnit(law, terms[0].unit),
              if SameDomain(terms) then terms[0].domain else MODEL, OutKind(law, terms[0].kind), assumption,
              map[], if EpochsOf(terms).OneEpoch? then Some(EpochsOf(terms).epoch) else None, None, None,
              Confidence(terms), None, Source(law))
  }

  function Neglected(law: Law, terms: seq<ErrorTerm>): Option<real> {
    if law == L3 then Some(Magnitude(Sum(terms) - ExactFailure(terms))) else None
  }

  /** The law to use, if the terms share a dimension and an epoch and the assumption is justified. */
  function Admissible(terms: seq<ErrorTerm>, assumption: Assumption): Option<Law>
    requires terms != []
  {
    if !SameDimension(terms) then None
    else if assumption == INDEPENDENT && exists t :: t in terms && !ClaimsIndependence(t) then None
    else if assumption == UNKNOWN_CORRELATION then None
    else if TheLaw(terms[0].kind, assumption) == None then None
    else if EpochsOf(terms).ManyEpochs? then None
    else TheLaw(terms[0].kind, assumption)
  }

  function Composed(root: real -> real, terms: seq<ErrorTerm>, assumption: Assumption): Result<Composition, Misuse> {
    if terms == [] then Refused(NoTerms) else
    match Admissible(terms, assumption)
    case None => Ok(Unresolved(terms, None, None))
    case Some(law) =>
      if law == L3 && Sum(terms) > 1.0 then Ok(Unresolved(terms, Some(law), Neglected(law, terms)))
      else if law == L5 && !HaveDeviations(terms) then Refused(NoDeviation)
      else if law == L5 && !AllCorrelated(terms) then Ok(Unresolved(terms, Some(law), None)) else
      var t := Combined(root, law, assumption, terms);
      if t.unit == PROBABILITY && !(0.0 <= t.value <= 1.0) then Refused(BadTerm)
      else Ok(Composition(Some(t), Some(law), ExactnessOf(law), Groups(terms), Neglected(law, terms)))
  }

  method AddUp(terms: seq<ErrorTerm>) returns (value: real)
    ensures value == Sum(terms)
  {
    value := 0.0;
    for i := 0 to |terms|
      invariant value == Sum(terms[..i])
    {
      assert terms[..i + 1][..i] == terms[..i];
      value := value + terms[i].value;
    }
    assert terms[..|terms|] == terms;
  }

  method MultiplyUp(terms: seq<ErrorTerm>) returns (value: real)
    ensures value == Product(terms)
  {
    value := 1.0;
    for i := 0 to |terms|
      invariant value == Product(terms[..i])
    {
      assert terms[..i + 1][..i] == terms[..i];
      value := value * Success(terms[i]);
    }
    assert terms[..|terms|] == terms;
  }

  method AddVariances(terms: seq<ErrorTerm>) returns (value: real)
    ensures value == SumOfVariances(terms)
  {
    value := 0.0;
    for i := 0 to |terms|
      invariant value == SumOfVariances(terms[..i])
    {
      assert terms[..i + 1][..i] == terms[..i];
      value := value + if terms[i].kind == VARIANCE then terms[i].value else terms[i].value * terms[i].value;
    }
    assert terms[..|terms|] == terms;
  }

  method AddSquares(root: real -> real, terms: seq<ErrorTerm>) returns (value: real)
    ensures value == SumOfSquares(root, terms)
  {
    value := 0.0;
    for i := 0 to |terms|
      invariant value == SumOfSquares(root, terms[..i])
    {
      assert terms[..i + 1][..i] == terms[..i];
      var s := Deviation(root, terms[i]);
      value := value + s * s;
    }
    assert terms[..|terms|] == terms;
  }

  predicate RowCorrelated(terms: seq<ErrorTerm>, i: nat, n: nat)
    requires i < n <= |terms|
  {
    forall j :: i < j < n ==> Correlation(terms[i], terms[j]).Some?
  }

  method AddCrossRow(root: real -> real, terms: seq<ErrorTerm>, i: nat) returns (complete: bool, row: real)
    requires i < |terms|
    ensures row == CrossRow(root, terms, i, |terms|) && (complete <==> RowCorrelated(terms, i, |terms|))
  {
    complete, row := true, 0.0;
    for j := i + 1 to |terms|
      invariant row == CrossRow(root, terms, i, j) && (complete <==> RowCorrelated(terms, i, j))
    {
      match Correlation(terms[i], terms[j]) {
        case None => complete := false;
        case Some(rho) => row := row + 2.0 * rho * Deviation(root, terms[i]) * Deviation(root, terms[j]);
      }
    }
  }

  /** The nested loop over pairs: the cross terms, and whether every pair has a coefficient. */
  method AddCrossTerms(root: real -> real, terms: seq<ErrorTerm>) returns (complete: bool, cross: real)
    ensures complete <==> AllCorrelated(terms)
    ensures cross == Cross(root, terms, |terms|)
  {
    complete, cross := true, 0.0;
    for i := 0 to |terms|
      invariant cross == Cross(root, terms, i)
      invariant complete <==> forall x :: 0 <= x < i ==> RowCorrelated(terms, x, |terms|)
    {
      var all, row := AddCrossRow(root, terms, i);
      complete, cross := complete && all, cross + row;
    }
    assert AllCorrelated(terms) ==> forall x :: 0 <= x < |terms| ==> RowCorrelated(terms, x, |terms|);
    assert complete ==> AllCorrelated(terms) by {
      forall i, j | complete && 0 <= i < j < |terms|
        ensures Correlation(terms[i], terms[j]).Some?
      {
        assert RowCorrelated(terms, i, |terms|);
      }
    }
  }

  method FindEpoch(terms: seq<ErrorTerm>) returns (epochs: Epochs)
    ensures epochs == EpochsOf(terms)
  {
    epochs := NoEpoch;
    for i := 0 to |terms|
      invariant epochs == EpochsOf(terms[..i])
    {
      assert terms[..i + 1][..i] == terms[..i];
      if terms[i].epoch.Some? {
        var own := OneEpoch(terms[i].epoch.value);
        epochs := if epochs.NoEpoch? || epochs == own then own else ManyEpochs;
      }
    }
    assert terms[..|terms|] == terms;
  }

  method ApplyLaw(root: real -> real, law: Law, terms: seq<ErrorTerm>) returns (value: real, complete: bool)
    requires terms != []
    ensures value == LawValue(root, law, terms)
    ensures complete <==> (law == L5 ==> AllCorrelated(terms))
  {
    complete := true;
    match law {
      case L1 =>
        var p := MultiplyUp(terms);
        value := if terms[0].kind == SUCCESS_PROBABILITY then p else 1.0 - p;
      case L4 => value := AddVariances(terms);
      case L5 =>
        var cross;
        complete, cross := AddCrossTerms(root, terms);
        var squares := AddSquares(root, terms);
        value := squares + cross;
      case _ => value := AddUp(terms);
    }
  }

  /** Apply an admissible law and seal the result, or say why it is no result. */
  method Resolve(root: real -> real, law: Law, terms: seq<ErrorTerm>, assumption: Assumption)
    returns (r: Result<Composition, Misuse>)
    requires terms != [] && Admissible(terms, assumption) == Some(law)
    ensures r == Composed(root, terms, assumption)
  {
    if law == L5 && !HaveDeviations(terms) {
      return Refused(NoDeviation);
    }
    var value, complete := ApplyLaw(root, law, terms);
    var neglected: Option<real> := None;
    if law == L3 {
      var p := MultiplyUp(terms);
      neglected := Some(Magnitude(value - (1.0 - p)));
    }
    if !complete || (law == L3 && value > 1.0) {
      return Ok(Unresolved(terms, Some(law), neglected));
    }
    var t := Combined(root, law, assumption, terms);
    if t.unit == PROBABILITY && !(0.0 <= value <= 1.0) {
      return Refused(BadTerm);
    }
    return Ok(Composition(Some(t), Some(law), ExactnessOf(law), Groups(terms), neglected));
  }

  method Compose(root: real -> real, terms: seq<ErrorTerm>, assumption: Assumption)
    returns (r: Result<Composition, Misuse>)
    ensures r == Composed(root, terms, assumption)
  {
    if terms == [] {
      return Refused(NoTerms);
    }
    var groups := GroupDimensions(terms);
    var unresolved := Composition(None, None, UNRESOLVED, groups, None);
    if |groups| > 1 || (assumption == INDEPENDENT && exists t :: t in terms && !ClaimsIndependence(t))
       || assumption == UNKNOWN_CORRELATION {
      return Ok(unresolved);
    }
    var law := LawFor(terms[0].kind, assumption);
    var epochs := FindEpoch(terms);
    if law == None || epochs.ManyEpochs? {
      return Ok(unresolved);
    }
    r := Resolve(root, law.value, terms, assumption);
  }
}
