/** When the correlated law's result is a variance: which coefficients keep it from going below zero. */
module CorrelatedVariance {
  import opened Common
  import opened ErrorAlgebra
  import opened ErrorLaws

  /** The same terms at other values. */
  function WithValues(terms: seq<ErrorTerm>, v: nat -> real): (r: seq<ErrorTerm>)
    ensures |r| == |terms|
  {
    if terms == [] then []
    else WithValues(terms[..|terms| - 1], v) + [terms[|terms| - 1].(value := v(|terms| - 1))]
  }

  lemma {:induction false} WithValuesAt(terms: seq<ErrorTerm>, v: nat -> real, i: nat)
    requires i < |terms|
    ensures WithValues(terms, v)[i] == terms[i].(value := v(i))
    decreases |terms|
  {
    if i < |terms| - 1 {
      WithValuesAt(terms[..|terms| - 1], v, i);
    }
  }

  predicate SameButValues(r: seq<ErrorTerm>, terms: seq<ErrorTerm>) {
    |r| == |terms| && forall i :: 0 <= i < |r| ==> r[i] == terms[i].(value := r[i].value)
  }

  lemma {:induction false} SameEpochs(r: seq<ErrorTerm>, terms: seq<ErrorTerm>)
    requires SameButValues(r, terms)
    ensures EpochsOf(r) == EpochsOf(terms)
    decreases |terms|
  {
    if terms != [] {
      SameEpochs(r[..|r| - 1], terms[..|terms| - 1]);
    }
  }

  lemma SameDimensions(r: seq<ErrorTerm>, terms: seq<ErrorTerm>)
    requires SameButValues(r, terms) && SameDimension(terms)
    ensures SameDimension(r)
  {
    forall i | 0 <= i < |r|
      ensures DimensionOf(r[i]) == DimensionOf(r[0])
    {
      assert DimensionOf(r[i]) == DimensionOf(terms[i]);
    }
  }

  lemma SameCorrelation(r: seq<ErrorTerm>, terms: seq<ErrorTerm>, i: nat, j: nat)
    requires SameButValues(r, terms) && i < |r| && j < |r|
    ensures Correlation(r[i], r[j]) == Correlation(terms[i], terms[j])
  {
  }

  lemma SameCorrelations(r: seq<ErrorTerm>, terms: seq<ErrorTerm>)
    requires SameButValues(r, terms)
    ensures AllCorrelated(terms) ==> AllCorrelated(r)
    ensures forall rho :: CorrelationsAre(terms, rho) ==> CorrelationsAre(r, rho)
  {
    forall i: nat, j: nat | i < j < |r|
      ensures Correlation(r[i], r[j]) == Correlation(terms[i], terms[j])
    {
      SameCorrelation(r, terms, i, j);
    }
  }

  lemma SameLaw(r: seq<ErrorTerm>, terms: seq<ErrorTerm>)
    requires SameButValues(r, terms) && terms != [] && Admissible(terms, CORRELATED) == Some(L5)
    ensures Admissible(r, CORRELATED) == Some(L5)
  {
    SameEpochs(r, terms);
    SameDimensions(r, terms);
    assert r[0].kind == terms[0].kind;
  }

  /** Composing them as correlated gives a term, and one that a variance can be. */
  ghost predicate ComposesToVariance(root: real -> real, terms: seq<ErrorTerm>) {
    var t := Outcome(Composed(root, terms, CORRELATED));
    t.Some? && t.value.value >= 0.0
  }

  predicate NonNegative(v: nat -> real, n: nat) {
    forall i :: 0 <= i < n ==> v(i) >= 0.0
  }

  /** The terms are of one kind of deviation and one epoch, and every pair has a coefficient. */
  predicate Composable(terms: seq<ErrorTerm>) {
    terms != [] && Admissible(terms, CORRELATED) == Some(L5) && AllCorrelated(terms)
  }

  lemma ComposedValue(root: real -> real, terms: seq<ErrorTerm>)
    requires Composable(terms) && HaveDeviations(terms)
    ensures ComposesToVariance(root, terms) <==> LawValue(root, L5, terms) >= 0.0
  {
  }

  lemma StaysComposable(r: seq<ErrorTerm>, terms: seq<ErrorTerm>)
    requires Composable(terms) && SameButValues(r, terms)
    ensures Composable(r)
  {
    SameLaw(r, terms);
    SameCorrelations(r, terms);
  }

  lemma WithValuesSame(terms: seq<ErrorTerm>, v: nat -> real)
    ensures SameButValues(WithValues(terms, v), terms)
    ensures forall i :: 0 <= i < |terms| ==> WithValues(terms, v)[i].value == v(i)
  {
    forall i: nat | i < |terms|
      ensures WithValues(terms, v)[i] == terms[i].(value := v(i))
    {
      WithValuesAt(terms, v, i);
    }
  }

  // ----- Two deviations -----

  function PairValue(rho: real, s: real, t: real): real {
    s * s + t * t + 2.0 * rho * s * t
  }

  lemma PairExpands(root: real -> real, a: ErrorTerm, b: ErrorTerm, rho: real)
    requires a.kind == STD_DEV && b.kind == STD_DEV && Correlation(a, b) == Some(rho)
    ensures LawValue(root, L5, [a, b]) == PairValue(rho, a.value, b.value)
  {
    var terms := [a, b];
    assert terms[..1] == [a] && [a][..0] == [];
    assert SumOfSquares(root, [a]) == a.value * a.value;
    assert CrossRow(root, terms, 0, 1) == 0.0 && CrossRow(root, terms, 1, 2) == 0.0;
    assert CrossRow(root, terms, 0, 2) == CrossTerm(root, a, b);
    assert Cross(root, terms, 0) == 0.0 && Cross(root, terms, 1) == CrossTerm(root, a, b);
  }

  /** A product weighted by a coefficient is outweighed by the squares weighted by its magnitude. */
  lemma WeightedProduct(rho: real, s: real, t: real)
    ensures Share(Magnitude(rho), s * s) + Share(Magnitude(rho), t * t) + 2.0 * rho * s * t >= 0.0
  {
    if rho >= 0.0 {
      WeightedSquare(rho, s, t);
    } else {
      WeightedSquare(-rho, s, -t);
      assert -t * -t == t * t;
      assert 2.0 * -rho * s * -t == 2.0 * rho * s * t;
    }
  }

  lemma WeightedSquare(w: real, s: real, t: real)
    requires w >= 0.0
    ensures w * (s * s) + w * (t * t) + 2.0 * w * s * t >= 0.0
  {
    assert (s + t) * (s + t) == s * s + t * t + 2.0 * s * t;
    SquareNonNegative(s + t);
    ProductNonNegative(w, (s + t) * (s + t));
    assert w * ((s + t) * (s + t)) == w * (s * s) + w * (t * t) + 2.0 * w * s * t;
  }

  lemma SquareNonNegative(x: real)
    ensures x * x >= 0.0
  {
  }

  lemma AtMostItself(w: real, q: real)
    requires w <= 1.0 && q >= 0.0
    ensures Share(w, q) <= q
  {
    ProductNonNegative(1.0 - w, q);
  }

  /** The two terms at the deviations s and t. */
  function PairAt(a: ErrorTerm, b: ErrorTerm, s: real, t: real): seq<ErrorTerm> {
    [a.(value := s), b.(value := t)]
  }

  lemma PairComposes(root: real -> real, a: ErrorTerm, b: ErrorTerm, rho: real, s: real, t: real)
    requires a.kind == STD_DEV && b.kind == STD_DEV && Correlation(a, b) == Some(rho) && Composable([a, b])
    ensures ComposesToVariance(root, PairAt(a, b, s, t)) <==> PairValue(rho, s, t) >= 0.0
  {
    var a', b' := a.(value := s), b.(value := t);
    assert Correlation(a', b') == Correlation(a, b);
    assert PairAt(a, b, s, t) == [a', b'];
    StaysComposable([a', b'], [a, b]);
    ComposedValue(root, [a', b']);
    PairExpands(root, a', b', rho);
  }

  lemma PairsAreVariances(rho: real, s: real, t: real)
    requires -1.0 <= rho <= 1.0
    ensures PairValue(rho, s, t) >= 0.0
  {
    WeightedProduct(rho, s, t);
    SquareNonNegative(s);
    SquareNonNegative(t);
    AtMostItself(Magnitude(rho), s * s);
    AtMostItself(Magnitude(rho), t * t);
  }

  /** Two deviations of either sign combine to a variance, whatever they are, exactly when the coefficient lies
      between minus one and one. */
  lemma TwoDeviationsExactly(root: real -> real, a: ErrorTerm, b: ErrorTerm, rho: real)
    requires a.kind == STD_DEV && b.kind == STD_DEV && Correlation(a, b) == Some(rho) && Composable([a, b])
    ensures (forall s, t :: ComposesToVariance(root, PairAt(a, b, s, t))) <==> -1.0 <= rho <= 1.0
  {
    if -1.0 <= rho <= 1.0 {
      forall s, t
        ensures ComposesToVariance(root, PairAt(a, b, s, t))
      {
        PairComposes(root, a, b, rho, s, t);
        PairsAreVariances(rho, s, t);
      }
    }
    if forall s, t :: ComposesToVariance(root, PairAt(a, b, s, t)) {
      PairComposes(root, a, b, rho, 1.0, 1.0);
      PairComposes(root, a, b, rho, 1.0, -1.0);
    }
  }

  // ----- One coefficient for every pair -----

  ghost predicate Additive(scale: real -> real) {
    scale(0.0) == 0.0 && forall a, b :: Adds(scale, a, b)
  }

  ghost predicate Adds(scale: real -> real, a: real, b: real) {
    scale(a + b) == scale(a) + scale(b)
  }

  ghost predicate Scaled(scale: real -> real, x: (nat, nat) -> real, y: (nat, nat) -> real, n: nat) {
    forall i, j :: 0 <= i < j < n ==> x(i, j) == scale(y(i, j))
  }

  lemma {:induction false} RowScales(scale: real -> real, x: (nat, nat) -> real, y: (nat, nat) -> real, i: nat, n: nat)
    requires Additive(scale) && Scaled(scale, x, y, n) && i < n
    ensures RowTotal(x, i, n) == scale(RowTotal(y, i, n))
    decreases n
  {
    if n > i + 1 {
      RowScales(scale, x, y, i, n - 1);
      assert Adds(scale, RowTotal(y, i, n - 1), y(i, n - 1));
    }
  }

  lemma {:induction false} TriangleScales(scale: real -> real, x: (nat, nat) -> real, y: (nat, nat) -> real, i: nat,
      n: nat)
    requires Additive(scale) && Scaled(scale, x, y, n) && i <= n
    ensures Triangle(x, i, n) == scale(Triangle(y, i, n))
  {
    if i > 0 {
      TriangleScales(scale, x, y, i - 1, n);
      RowScales(scale, x, y, i - 1, n);
      assert Adds(scale, Triangle(y, i - 1, n), RowTotal(y, i - 1, n));
    }
  }

  /** The doubled products of every pair. */
  function Pairs(twice: (real, real) -> real, d: nat -> real): (nat, nat) -> real {
    (i: nat, j: nat) => twice(d(i), d(j))
  }

  lemma {:induction false} ColumnIs(square: real -> real, twice: (real, real) -> real, d: nat -> real, i: nat, n: nat)
    requires Binomial(square, twice)
    ensures ColumnTotal(Pairs(twice, d), i, n) == twice(Total(d, i), d(n))
  {
    if i > 0 {
      ColumnIs(square, twice, d, i - 1, n);
      assert Distributes(twice, Total(d, i - 1), d(i - 1), d(n));
    }
  }

  /** The square of a sum is the sum of the squares and of the doubled products. */
  lemma {:induction false} SquareOfSum(square: real -> real, twice: (real, real) -> real, q: nat -> real,
      d: nat -> real, n: nat)
    requires Binomial(square, twice) && Squares(square, q, d, n)
    ensures square(Total(d, n)) == Total(q, n) + Triangle(Pairs(twice, d), n, n)
  {
    if n > 0 {
      var m := n - 1;
      SquareOfSum(square, twice, q, d, m);
      SquareGrows(square, twice, q, d, m, n);
      ColumnIs(square, twice, d, m, m);
      TriangleGrows(Pairs(twice, d), m);
      assert Pairs(twice, d)(m, m) == twice(d(m), d(m));
    }
  }

  function Times(rho: real): real -> real {
    x => rho * x
  }

  lemma TimesIsAdditive(rho: real)
    ensures Additive(Times(rho))
  {
  }

  lemma CommonCrossTerms(root: real -> real, terms: seq<ErrorTerm>, rho: real)
    requires CorrelationsAre(terms, rho)
    ensures Scaled(Times(rho), CrossTerms(root, terms), Pairs(Twice, Deviations(root, terms)), |terms|)
  {
    forall i: nat, j: nat | i < j < |terms|
      ensures CrossTerms(root, terms)(i, j) == Times(rho)(Pairs(Twice, Deviations(root, terms))(i, j))
    {
      CommonCrossTerm(root, terms[i], terms[j], rho);
    }
  }

  lemma CommonCrossTerm(root: real -> real, a: ErrorTerm, b: ErrorTerm, rho: real)
    requires Correlation(a, b) == Some(rho)
    ensures CrossTerm(root, a, b) == rho * Twice(Deviation(root, a), Deviation(root, b))
  {
    var s, t := Deviation(root, a), Deviation(root, b);
    assert 2.0 * rho * s * t == rho * (2.0 * s * t);
  }

  lemma SquaredAreSquares(root: real -> real, terms: seq<ErrorTerm>)
    ensures Squares(Square, SquaredDeviations(root, terms), Deviations(root, terms), |terms|)
  {
  }

  lemma ValueIsTriangle(root: real -> real, terms: seq<ErrorTerm>)
    requires terms != []
    ensures SumOfSquares(root, terms) == Total(SquaredDeviations(root, terms), |terms|)
    ensures LawValue(root, L5, terms) ==
            Total(SquaredDeviations(root, terms), |terms|) + Triangle(CrossTerms(root, terms), |terms|, |terms|)
  {
    CorrelatedValue(root, terms);
    CrossIsTriangle(root, terms, |terms|);
    SquaresAreTotal(root, terms, |terms|);
    assert terms[..|terms|] == terms;
  }

  /** (1 - rho) parts of q and rho parts of s. */
  function Mixed(rho: real, q: real, s: real): real {
    (1.0 - rho) * q + rho * s
  }

  /** With one coefficient the law gives (1 - rho) times the sum of the squares and rho times the square of the sum. */
  lemma CommonCorrelationValue(root: real -> real, terms: seq<ErrorTerm>, rho: real)
    requires terms != [] && CorrelationsAre(terms, rho)
    ensures LawValue(root, L5, terms) ==
            Mixed(rho, SumOfSquares(root, terms), Square(SumOfDeviations(root, terms)))
  {
    var n, d, q := |terms|, Deviations(root, terms), SquaredDeviations(root, terms);
    ValueIsTriangle(root, terms);
    CommonCrossTerms(root, terms, rho);
    TimesIsAdditive(rho);
    TriangleScales(Times(rho), CrossTerms(root, terms), Pairs(Twice, d), n, n);
    SquareIsBinomial();
    SquaredAreSquares(root, terms);
    SquareOfSum(Square, Twice, q, d, n);
    Regroup(rho, Total(q, n), Triangle(Pairs(Twice, d), n, n), Square(Total(d, n)));
  }

  lemma Regroup(rho: real, q: real, p: real, s: real)
    requires s == q + p
    ensures q + rho * p == Mixed(rho, q, s)
  {
  }

  // ----- Cauchy and Schwarz -----

  lemma OneMoreSpread(x: real, c: real, q: real, s: real, n: real)
    requires q - 2.0 * c * s + n * (c * c) >= 0.0
    ensures (q + x * x) - 2.0 * c * (s + x) + (n + 1.0) * (c * c) >= 0.0
  {
    assert (x - c) * (x - c) == x * x - 2.0 * c * x + c * c;
    assert 2.0 * c * (s + x) == 2.0 * c * s + 2.0 * c * x;
    assert (n + 1.0) * (c * c) == n * (c * c) + c * c;
    assert (x - c) * (x - c) >= 0.0;
  }

  lemma {:induction false} Spread(q: nat -> real, d: nat -> real, c: real, n: nat)
    requires Squares(Square, q, d, n)
    ensures Total(q, n) - 2.0 * c * Total(d, n) + n as real * (c * c) >= 0.0
  {
    if n > 0 {
      Spread(q, d, c, n - 1);
      OneMoreSpread(d(n - 1), c, Total(q, n - 1), Total(d, n - 1), (n - 1) as real);
    }
  }

  lemma AtTheMean(q: real, s: real, n: real, c: real)
    requires n > 0.0 && s == n * c && q - 2.0 * c * s + n * (c * c) >= 0.0
    ensures s * s <= n * q
  {
    assert 2.0 * c * s == 2.0 * (n * (c * c));
    assert q >= n * (c * c);
    ProductNonNegative(n, q - n * (c * c));
    assert s * s == n * (n * (c * c));
  }

  /** The square of a sum of n numbers is at most n times the sum of their squares. */
  lemma SquareOfSumIsBounded(q: nat -> real, d: nat -> real, n: nat)
    requires n > 0 && Squares(Square, q, d, n)
    ensures Square(Total(d, n)) <= n as real * Total(q, n)
  {
    var c := Total(d, n) / n as real;
    Spread(q, d, c, n);
    AtTheMean(Total(q, n), Total(d, n), n as real, c);
  }

  lemma {:induction false} TotalNonNegative(f: nat -> real, n: nat)
    requires forall i: nat :: i < n ==> f(i) >= 0.0
    ensures Total(f, n) >= 0.0
  {
    if n > 0 {
      TotalNonNegative(f, n - 1);
    }
  }

  lemma {:induction false} ColumnNonNegative(x: (nat, nat) -> real, i: nat, n: nat)
    requires i <= n && forall k: nat :: k < n ==> x(k, n) >= 0.0
    ensures ColumnTotal(x, i, n) >= 0.0
  {
    if i > 0 {
      ColumnNonNegative(x, i - 1, n);
    }
  }

  lemma {:induction false} TriangleNonNegative(x: (nat, nat) -> real, n: nat)
    requires forall i: nat, j: nat :: i < j < n ==> x(i, j) >= 0.0
    ensures Triangle(x, n, n) >= 0.0
  {
    if n > 0 {
      TriangleNonNegative(x, n - 1);
      TriangleGrows(x, n - 1);
      ColumnNonNegative(x, n - 1, n - 1);
    }
  }

  /** Non-negative numbers: the square of the sum is at least the sum of the squares. */
  lemma SquareOfSumIsLarger(q: nat -> real, d: nat -> real, n: nat)
    requires Squares(Square, q, d, n) && NonNegative(d, n)
    ensures Total(q, n) <= Square(Total(d, n))
  {
    SquareIsBinomial();
    SquareOfSum(Square, Twice, q, d, n);
    forall i: nat, j: nat | i < j < n
      ensures Pairs(Twice, d)(i, j) >= 0.0
    {
      ProductNonNegative(d(i), d(j));
      assert Twice(d(i), d(j)) == 2.0 * (d(i) * d(j));
    }
    TriangleNonNegative(Pairs(Twice, d), n);
  }

  lemma CommonIsNonNegative(q: real, s: real, n: real, rho: real)
    requires 0.0 <= q <= s <= n * q && rho * (n - 1.0) >= -1.0
    ensures Mixed(rho, q, s) >= 0.0
  {
    if rho >= 0.0 {
      ProductNonNegative(rho, s - q);
      assert (1.0 - rho) * q + rho * s == q + rho * (s - q);
    } else {
      ProductNonNegative(-rho, n * q - s);
      ProductNonNegative(rho * (n - 1.0) + 1.0, q);
      assert (rho * (n - 1.0) + 1.0) * q == rho * (n * q) - rho * q + q;
      assert -rho * (n * q - s) == rho * s - rho * (n * q);
      assert (1.0 - rho) * q == q - rho * q;
    }
  }

  /** The coefficient is at least -1/(n - 1), without the division. */
  predicate AtLeastInverse(rho: real, n: nat) {
    rho * (n - 1) as real >= -1.0
  }

  lemma CommonNonNegative(root: real -> real, terms: seq<ErrorTerm>, rho: real)
    requires terms != [] && CorrelationsAre(terms, rho) && DeviationsNonNegative(root, terms)
    requires AtLeastInverse(rho, |terms|)
    ensures LawValue(root, L5, terms) >= 0.0
  {
    var n, d, q := |terms|, Deviations(root, terms), SquaredDeviations(root, terms);
    CommonCorrelationValue(root, terms, rho);
    ValueIsTriangle(root, terms);
    SquaredAreSquares(root, terms);
    SquareOfSumIsBounded(q, d, n);
    SquareOfSumIsLarger(q, d, n);
    SquaresNonNegative(root, terms, n);
    CommonIsNonNegative(Total(q, n), Square(Total(d, n)), n as real, rho);
  }

  lemma SquaresNonNegative(root: real -> real, terms: seq<ErrorTerm>, n: nat)
    ensures Total(SquaredDeviations(root, terms), n) >= 0.0
  {
    forall i: nat | i < n
      ensures SquaredDeviations(root, terms)(i) >= 0.0
    {
      if i < |terms| {
        var s := Deviation(root, terms[i]);
        assert s * s >= 0.0;
      }
    }
    TotalNonNegative(SquaredDeviations(root, terms), n);
  }

  lemma {:induction false} TotalOfOnes(f: nat -> real, n: nat)
    requires forall i: nat :: i < n ==> f(i) == 1.0
    ensures Total(f, n) == n as real
  {
    if n > 0 {
      TotalOfOnes(f, n - 1);
    }
  }

  lemma RootOfOne(root: real -> real)
    requires IsRoot(root)
    ensures root(1.0) == 1.0
  {
    UnitSquare(root(1.0));
  }

  lemma UnitSquare(x: real)
    requires x >= 0.0 && x * x == 1.0
    ensures x == 1.0
  {
    if x > 1.0 {
      ProductNonNegative(x, x - 1.0);
    } else {
      ProductNonNegative(x, 1.0 - x);
    }
  }

  function Ones(): nat -> real {
    (i: nat) => 1.0
  }

  predicate UnitValues(terms: seq<ErrorTerm>) {
    forall i :: 0 <= i < |terms| ==> terms[i].value == 1.0
  }

  /** Unit deviations show the coefficient through. */
  lemma OnesValue(root: real -> real, terms: seq<ErrorTerm>, rho: real)
    requires IsRoot(root) && terms != [] && CorrelationsAre(terms, rho) && UnitValues(terms)
    ensures LawValue(root, L5, terms) == |terms| as real * (1.0 + rho * (|terms| - 1) as real)
  {
    var n, d, q := |terms|, Deviations(root, terms), SquaredDeviations(root, terms);
    RootOfOne(root);
    forall i: nat | i < n
      ensures d(i) == 1.0 && q(i) == 1.0
    {
      assert terms[i].value == 1.0;
    }
    TotalOfOnes(d, n);
    TotalOfOnes(q, n);
    CommonCorrelationValue(root, terms, rho);
    ValueIsTriangle(root, terms);
    OnesIdentity(n as real, rho);
  }

  lemma OnesIdentity(n: real, rho: real)
    ensures Mixed(rho, n, Square(n)) == n * (1.0 + rho * (n - 1.0))
  {
  }

  lemma PositiveFactor(n: real, x: real)
    requires n > 0.0 && n * x >= 0.0
    ensures x >= 0.0
  {
  }

  lemma DeviationsAtValues(root: real -> real, terms: seq<ErrorTerm>)
    requires IsRoot(root) && forall i :: 0 <= i < |terms| ==> terms[i].value >= 0.0
    ensures DeviationsNonNegative(root, terms) && HaveDeviations(terms)
  {
  }

  lemma CommonAtValues(root: real -> real, terms: seq<ErrorTerm>, rho: real, v: nat -> real)
    requires IsRoot(root) && Composable(terms) && CorrelationsAre(terms, rho) && NonNegative(v, |terms|)
    ensures CorrelationsAre(WithValues(terms, v), rho) && DeviationsNonNegative(root, WithValues(terms, v))
    ensures ComposesToVariance(root, WithValues(terms, v)) <==> LawValue(root, L5, WithValues(terms, v)) >= 0.0
  {
    WithValuesSame(terms, v);
    StaysComposable(WithValues(terms, v), terms);
    SameCorrelations(WithValues(terms, v), terms);
    DeviationsAtValues(root, WithValues(terms, v));
    ComposedValue(root, WithValues(terms, v));
  }

  /** Whatever non-negative values the terms take, they combine to a variance. */
  ghost predicate AlwaysVariance(root: real -> real, terms: seq<ErrorTerm>) {
    forall v :: NonNegative(v, |terms|) ==> ComposesToVariance(root, WithValues(terms, v))
  }

  lemma OnesDecide(root: real -> real, terms: seq<ErrorTerm>, rho: real, n: nat)
    requires IsRoot(root) && terms != [] && CorrelationsAre(terms, rho) && UnitValues(terms) && n == |terms|
    requires LawValue(root, L5, terms) >= 0.0
    ensures AtLeastInverse(rho, n)
  {
    OnesValue(root, terms, rho);
    PositiveFactor(n as real, 1.0 + rho * (n - 1) as real);
  }

  lemma AllOnes(terms: seq<ErrorTerm>)
    ensures UnitValues(WithValues(terms, Ones()))
  {
    WithValuesSame(terms, Ones());
  }

  lemma AtOnes(root: real -> real, terms: seq<ErrorTerm>, rho: real)
    requires IsRoot(root) && Composable(terms) && CorrelationsAre(terms, rho)
    requires ComposesToVariance(root, WithValues(terms, Ones()))
    ensures AtLeastInverse(rho, |terms|)
  {
    CommonAtValues(root, terms, rho, Ones());
    AllOnes(terms);
    OnesDecide(root, WithValues(terms, Ones()), rho, |terms|);
  }

  /** Two or more terms sharing one coefficient combine to a variance at every choice of non-negative values exactly
      when that coefficient is at least -1/(n - 1). */
  lemma CommonCorrelationExactly(root: real -> real, terms: seq<ErrorTerm>, rho: real)
    requires IsRoot(root) && Composable(terms) && |terms| >= 2 && CorrelationsAre(terms, rho)
    ensures AlwaysVariance(root, terms) <==> rho >= -1.0 / (|terms| - 1) as real
  {
    InverseIsQuotient(rho, |terms|);
    if AtLeastInverse(rho, |terms|) {
      forall v: nat -> real | NonNegative(v, |terms|)
        ensures ComposesToVariance(root, WithValues(terms, v))
      {
        CommonAtValues(root, terms, rho, v);
        CommonNonNegative(root, WithValues(terms, v), rho);
      }
    }
    if AlwaysVariance(root, terms) {
      assert NonNegative(Ones(), |terms|);
      AtOnes(root, terms, rho);
    }
  }

  lemma InverseIsQuotient(rho: real, n: nat)
    requires n >= 2
    ensures AtLeastInverse(rho, n) <==> rho >= -1.0 / (n - 1) as real
  {
    Quotient(rho, (n - 1) as real);
  }

  lemma Quotient(rho: real, m: real)
    requires m > 0.0
    ensures rho >= -1.0 / m <==> rho * m >= -1.0
  {
    var x := -1.0 / m;
    assert x * m == -1.0;
    if rho >= x {
      ProductNonNegative(rho - x, m);
    } else {
      Positive(x - rho, m);
      assert (x - rho) * m == x * m - rho * m;
    }
  }

  lemma Positive(x: real, y: real)
    requires x > 0.0 && y > 0.0
    ensures x * y > 0.0
  {
  }

  // ----- Any coefficients -----

  /** How strongly two of the terms are said to be correlated, as a magnitude. */
  function Strength(terms: seq<ErrorTerm>, i: nat, j: nat): real {
    if i >= |terms| || j >= |terms| || i == j then 0.0
    else
      var rho := if i < j then Correlation(terms[i], terms[j]) else Correlation(terms[j], terms[i]);
      if rho.Some? then Magnitude(rho.value) else 0.0
  }

  function Strengths(terms: seq<ErrorTerm>, i: nat): nat -> real {
    (j: nat) => Strength(terms, i, j)
  }

  /** No term's coefficients add up to more than one. */
  predicate WeaklyCorrelated(terms: seq<ErrorTerm>) {
    forall i :: 0 <= i < |terms| ==> Total(Strengths(terms, i), |terms|) <= 1.0
  }

  function Row(p: (nat, nat) -> real, i: nat): nat -> real {
    (j: nat) => p(i, j)
  }

  /** The first n columns of the first m rows. */
  function Rectangle(p: (nat, nat) -> real, m: nat, n: nat): real {
    if m == 0 then 0.0 else Rectangle(p, m - 1, n) + Total(Row(p, m - 1), n)
  }

  lemma {:induction false} RectangleWidens(p: (nat, nat) -> real, m: nat, n: nat)
    ensures Rectangle(p, m, n + 1) == Rectangle(p, m, n) + ColumnTotal(p, m, n)
  {
    if m > 0 {
      RectangleWidens(p, m - 1, n);
    }
  }

  /** Every entry above the diagonal is outweighed by the two mirrored entries of p. */
  ghost predicate Outweighs(p: (nat, nat) -> real, x: (nat, nat) -> real, n: nat) {
    forall i, j :: 0 <= i < j < n ==> x(i, j) + p(i, j) + p(j, i) >= 0.0
  }

  lemma {:induction false} ColumnOutweighed(p: (nat, nat) -> real, x: (nat, nat) -> real, i: nat, n: nat, m: nat)
    requires i <= n < m && Outweighs(p, x, m)
    ensures ColumnTotal(x, i, n) + ColumnTotal(p, i, n) + Total(Row(p, n), i) >= 0.0
  {
    if i > 0 {
      ColumnOutweighed(p, x, i - 1, n, m);
      assert x(i - 1, n) + p(i - 1, n) + p(n, i - 1) >= 0.0;
    }
  }

  lemma {:induction false} TriangleOutweighed(p: (nat, nat) -> real, x: (nat, nat) -> real, n: nat)
    requires Outweighs(p, x, n) && forall i: nat :: i < n ==> p(i, i) == 0.0
    ensures Triangle(x, n, n) + Rectangle(p, n, n) >= 0.0
  {
    if n > 0 {
      TriangleOutweighed(p, x, n - 1);
      TriangleGrows(x, n - 1);
      RectangleWidens(p, n - 1, n - 1);
      ColumnOutweighed(p, x, n - 1, n - 1, n);
      assert Row(p, n - 1)(n - 1) == 0.0;
    }
  }

  lemma {:induction false} RectangleWithin(p: (nat, nat) -> real, q: nat -> real, m: nat, n: nat)
    requires forall i: nat :: i < m ==> Total(Row(p, i), n) <= q(i)
    ensures Rectangle(p, m, n) <= Total(q, m)
  {
    if m > 0 {
      RectangleWithin(p, q, m - 1, n);
    }
  }

  function Share(w: real, q: real): real {
    w * q
  }

  /** A term's square in the shares that its coefficients with the others ask for. */
  function Shares(root: real -> real, terms: seq<ErrorTerm>): (nat, nat) -> real {
    (i: nat, j: nat) => Share(Strength(terms, i, j), SquaredDeviations(root, terms)(i))
  }

  lemma {:induction false} SharesOfRow(root: real -> real, terms: seq<ErrorTerm>, i: nat, n: nat)
    ensures Total(Row(Shares(root, terms), i), n) ==
            Share(Total(Strengths(terms, i), n), SquaredDeviations(root, terms)(i))
  {
    if n > 0 {
      SharesOfRow(root, terms, i, n - 1);
      ShareOut(Total(Strengths(terms, i), n - 1), Strength(terms, i, n - 1), SquaredDeviations(root, terms)(i));
    }
  }

  lemma ShareOut(a: real, b: real, q: real)
    ensures Share(a, q) + Share(b, q) == Share(a + b, q)
  {
  }

  lemma ShareOutweighs(root: real -> real, terms: seq<ErrorTerm>, i: nat, j: nat)
    requires i < j < |terms|
    ensures CrossTerms(root, terms)(i, j) + Shares(root, terms)(i, j) + Shares(root, terms)(j, i) >= 0.0
  {
    var s, t := Deviation(root, terms[i]), Deviation(root, terms[j]);
    assert SquaredDeviations(root, terms)(i) == s * s && SquaredDeviations(root, terms)(j) == t * t;
    match Correlation(terms[i], terms[j])
    case None =>
      assert Share(0.0, s * s) == 0.0 && Share(0.0, t * t) == 0.0;
    case Some(rho) =>
      assert CrossTerms(root, terms)(i, j) == 2.0 * rho * s * t;
      WeightedProduct(rho, s, t);
  }

  lemma SharesOutweigh(root: real -> real, terms: seq<ErrorTerm>)
    ensures Outweighs(Shares(root, terms), CrossTerms(root, terms), |terms|)
  {
    forall i: nat, j: nat | i < j < |terms|
      ensures CrossTerms(root, terms)(i, j) + Shares(root, terms)(i, j) + Shares(root, terms)(j, i) >= 0.0
    {
      ShareOutweighs(root, terms, i, j);
    }
  }

  lemma SharesWithin(root: real -> real, terms: seq<ErrorTerm>, i: nat)
    requires i < |terms| && WeaklyCorrelated(terms)
    ensures Total(Row(Shares(root, terms), i), |terms|) <= SquaredDeviations(root, terms)(i)
  {
    SquareNonNegative(Deviation(root, terms[i]));
    SharesOfRow(root, terms, i, |terms|);
    AtMostItself(Total(Strengths(terms, i), |terms|), SquaredDeviations(root, terms)(i));
  }

  lemma NothingOnDiagonal(root: real -> real, terms: seq<ErrorTerm>, i: nat)
    ensures Shares(root, terms)(i, i) == 0.0
  {
    assert Share(0.0, SquaredDeviations(root, terms)(i)) == 0.0;
  }

  lemma WeaklyCorrelatedValue(root: real -> real, terms: seq<ErrorTerm>)
    requires terms != [] && WeaklyCorrelated(terms)
    ensures LawValue(root, L5, terms) >= 0.0
  {
    var n := |terms|;
    ValueIsTriangle(root, terms);
    SharesOutweigh(root, terms);
    forall i: nat
      ensures Shares(root, terms)(i, i) == 0.0
    {
      NothingOnDiagonal(root, terms, i);
    }
    TriangleOutweighed(Shares(root, terms), CrossTerms(root, terms), n);
    forall i: nat | i < n
      ensures Total(Row(Shares(root, terms), i), n) <= SquaredDeviations(root, terms)(i)
    {
      SharesWithin(root, terms, i);
    }
    RectangleWithin(Shares(root, terms), SquaredDeviations(root, terms), n, n);
  }

  /** Whatever the terms and their values: if no term's coefficients add up to more than one in magnitude, a combined
      result is a variance. */
  lemma WeaklyCorrelatedIsVariance(root: real -> real, terms: seq<ErrorTerm>, c: ErrorTerm)
    requires Outcome(Composed(root, terms, CORRELATED)) == Some(c) && WeaklyCorrelated(terms)
    ensures c.value >= 0.0
  {
    CorrelatedOutcome(root, terms, c);
    WeaklyCorrelatedValue(root, terms);
  }
}
