/** What composition guarantees: the additive law bounds the exact one, grouping does not matter, and correlated
    variances lie where their coefficients say. */
module ErrorLaws {
  import opened Common
  import opened ErrorAlgebra

  /** The combined term of a composition, if there is one. */
  function Outcome(r: Result<Composition, Misuse>): Option<ErrorTerm> {
    if r.Ok? then r.value.combined else None
  }

  /** The combined term once the law is settled. */
  function Sealed(root: real -> real, law: Law, assumption: Assumption, terms: seq<ErrorTerm>): Option<ErrorTerm>
    requires terms != []
  {
    var t := Combined(root, law, assumption, terms);
    if law == L3 && Sum(terms) > 1.0 then None
    else if law == L5 && !(HaveDeviations(terms) && AllCorrelated(terms)) then None
    else if t.unit == PROBABILITY && !(0.0 <= t.value <= 1.0) then None
    else Some(t)
  }

  lemma OutcomeIs(root: real -> real, terms: seq<ErrorTerm>, assumption: Assumption)
    requires terms != []
    ensures Outcome(Composed(root, terms, assumption)) ==
            match Admissible(terms, assumption) case None => None case Some(law) => Sealed(root, law, assumption, terms)
  {
  }

  lemma OutcomeSome(root: real -> real, terms: seq<ErrorTerm>, assumption: Assumption)
    requires Outcome(Composed(root, terms, assumption)).Some?
    ensures terms != [] && Admissible(terms, assumption).Some?
    ensures var law := Admissible(terms, assumption).value;
            Outcome(Composed(root, terms, assumption)).value == Combined(root, law, assumption, terms)
            && (law == L5 ==> HaveDeviations(terms))
  {
  }

  // ----- The additive law against the exact one -----

  predicate AreFailures(terms: seq<ErrorTerm>) {
    forall t :: t in terms ==> t.kind != SUCCESS_PROBABILITY && 0.0 <= t.value <= 1.0
  }

  /** The sum of the products of every pair. */
  function PairSum(terms: seq<ErrorTerm>): real {
    if terms == [] then 0.0 else PairSum(terms[..|terms| - 1]) + Sum(terms[..|terms| - 1]) * terms[|terms| - 1].value
  }

  /** The product, sum and pair sum of a list, abstracted from how they are computed. */
  predicate Bounded(p: real, s: real, q: real) {
    0.0 <= p <= 1.0 && 0.0 <= s - (1.0 - p) <= q
  }

  lemma ProductNonNegative(x: real, y: real)
    requires x >= 0.0 && y >= 0.0
    ensures x * y >= 0.0
  {
  }

  lemma SumNonNegative(x: real, y: real, z: real)
    requires x >= 0.0 && y >= 0.0 && z == x + y
    ensures z >= 0.0
  {
  }

  /** With excess d of the sum over the exact value, one more probability e adds e(1 - p) to the excess. */
  lemma ExcessGrows(p: real, s: real, e: real, d: real)
    requires d == s - (1.0 - p)
    ensures (s + e) - (1.0 - p * (1.0 - e)) == d + e * (1.0 - p)
  {
  }

  /** And it adds e d to the distance from the excess to the pair sum. */
  lemma SlackGrows(p: real, s: real, e: real, d: real, q: real)
    requires d == s - (1.0 - p)
    ensures q + s * e - ((s + e) - (1.0 - p * (1.0 - e))) == (q - d) + e * d
  {
  }

  lemma BoundedStep(p: real, s: real, q: real, e: real, f: real)
    requires Bounded(p, s, q) && 0.0 <= e <= 1.0 && f == 1.0 - e
    ensures Bounded(p * f, s + e, q + s * e)
  {
    var d := s - (1.0 - p);
    ProductNonNegative(e, 1.0 - p);
    ProductNonNegative(e, d);
    ProductNonNegative(p, f);
    ProductNonNegative(p, e);
    ExcessGrows(p, s, e, d);
    SlackGrows(p, s, e, d, q);
    SumNonNegative(d, e * (1.0 - p), (s + e) - (1.0 - p * (1.0 - e)));
    SumNonNegative(q - d, e * d, q + s * e - ((s + e) - (1.0 - p * (1.0 - e))));
  }

  lemma {:induction false} AdditiveIsBounded(terms: seq<ErrorTerm>)
    requires AreFailures(terms)
    ensures Bounded(Product(terms), Sum(terms), PairSum(terms))
    decreases |terms|
  {
    if terms != [] {
      var before, last := terms[..|terms| - 1], terms[|terms| - 1];
      AdditiveIsBounded(before);
      BoundedStep(Product(before), Sum(before), PairSum(before), last.value, Success(last));
    }
  }

  /** For probabilities the additive law never understates the exact one, and overstates it by at most the sum of
      the pairwise products. */
  lemma AdditiveBoundsExact(terms: seq<ErrorTerm>)
    requires AreFailures(terms)
    ensures 0.0 <= Product(terms) <= 1.0
    ensures 0.0 <= Sum(terms) - ExactFailure(terms) <= PairSum(terms)
  {
    AdditiveIsBounded(terms);
  }

  lemma AdditiveValues(terms: seq<ErrorTerm>)
    requires AreFailures(terms)
    ensures 0.0 <= Sum(terms)
    ensures Neglected(L3, terms).Some? && 0.0 <= Neglected(L3, terms).value <= PairSum(terms)
  {
    AdditiveBoundsExact(terms);
  }

  /** Composing probabilities additively: the reported neglected magnitude is between nothing and the sum of the
      pairwise products, and there is a combined term exactly when the sum is a probability. */
  lemma NeglectedIsSecondOrder(root: real -> real, terms: seq<ErrorTerm>)
    requires AreFailures(terms) && terms != [] && Admissible(terms, SMALL_ERROR) == Some(L3)
    ensures var r := Composed(root, terms, SMALL_ERROR);
            && r.Ok? && r.value.neglected.Some? && 0.0 <= r.value.neglected.value <= PairSum(terms)
            && (r.value.combined.Some? <==> Sum(terms) <= 1.0)
  {
    AdditiveValues(terms);
    assert Combined(root, L3, SMALL_ERROR, terms).value == Sum(terms);
  }

  /** When the same terms also compose exactly, the additive value is that value plus the neglected magnitude. */
  lemma AdditiveNeverUnderstates(root: real -> real, terms: seq<ErrorTerm>)
    requires AreFailures(terms) && BothAdmissible(terms)
    requires Outcome(Composed(root, terms, SMALL_ERROR)).Some? && Outcome(Composed(root, terms, INDEPENDENT)).Some?
    ensures var additive := Outcome(Composed(root, terms, SMALL_ERROR)).value;
            var exact := Outcome(Composed(root, terms, INDEPENDENT)).value;
            exact.value <= additive.value <= exact.value + PairSum(terms)
  {
    AdditiveBoundsExact(terms);
    OutcomeSome(root, terms, SMALL_ERROR);
    OutcomeSome(root, terms, INDEPENDENT);
    assert terms[0] in terms;
  }

  /** Both the additive and the exact law are admissible. */
  predicate BothAdmissible(terms: seq<ErrorTerm>) {
    terms != [] && Admissible(terms, SMALL_ERROR) == Some(L3) && Admissible(terms, INDEPENDENT) == Some(L1)
  }

  // ----- Only what is comparable is combined -----

  lemma {:induction false} OneEpochMeansAgreement(terms: seq<ErrorTerm>)
    requires !EpochsOf(terms).ManyEpochs?
    ensures forall t :: t in terms && t.epoch.Some? ==> EpochsOf(terms) == OneEpoch(t.epoch.value)
    decreases |terms|
  {
    if terms != [] {
      OneEpochMeansAgreement(terms[..|terms| - 1]);
      assert terms == terms[..|terms| - 1] + [terms[|terms| - 1]];
    }
  }

  lemma {:induction false} ConfidenceIsLeast(terms: seq<ErrorTerm>)
    ensures forall t :: t in terms && t.confidence.Some? ==>
              Confidence(terms).Some? && Confidence(terms).value <= t.confidence.value
    ensures Confidence(terms).Some? ==> exists t :: t in terms && t.confidence == Confidence(terms)
    decreases |terms|
  {
    if terms != [] {
      ConfidenceIsLeast(terms[..|terms| - 1]);
      assert terms == terms[..|terms| - 1] + [terms[|terms| - 1]];
    }
  }

  /** A combined term comes only from terms of one unit and kind and at most one calibration epoch; it carries that
      epoch and the least confidence. */
  lemma CombinedMeansComparable(root: real -> real, terms: seq<ErrorTerm>, assumption: Assumption)
    requires Outcome(Composed(root, terms, assumption)).Some?
    ensures forall s, t :: s in terms && t in terms ==> DimensionOf(s) == DimensionOf(t)
    ensures forall t :: t in terms && t.epoch.Some? ==>
              Outcome(Composed(root, terms, assumption)).value.epoch == t.epoch
    ensures assumption == INDEPENDENT ==> forall t :: t in terms ==> ClaimsIndependence(t)
    ensures forall t :: t in terms && t.confidence.Some? ==>
              var c := Outcome(Composed(root, terms, assumption)).value.confidence;
              c.Some? && c.value <= t.confidence.value
    ensures var c := Outcome(Composed(root, terms, assumption)).value.confidence;
            c.Some? ==> exists t :: t in terms && t.confidence == c
  {
    OneEpochMeansAgreement(terms);
    ConfidenceIsLeast(terms);
    assert SameDimension(terms);
  }

  // ----- Valid terms give a valid term -----

  predicate AllValid(terms: seq<ErrorTerm>) {
    forall t :: t in terms ==> Valid(t)
  }

  /** What composing valid terms combines them to is itself a valid term. */
  lemma CombinedIsValid(root: real -> real, terms: seq<ErrorTerm>, assumption: Assumption, c: ErrorTerm)
    requires AllValid(terms) && Outcome(Composed(root, terms, assumption)) == Some(c)
    ensures Valid(c)
  {
    ConfidenceIsLeast(terms);
    OutcomeSome(root, terms, assumption);
  }

  predicate AreProbabilities(terms: seq<ErrorTerm>) {
    forall t :: t in terms ==> 0.0 <= t.value <= 1.0
  }

  lemma ProductStays(p: real, f: real)
    requires 0.0 <= p <= 1.0 && 0.0 <= f <= 1.0
    ensures 0.0 <= p * f <= 1.0
  {
    ProductNonNegative(p, f);
    ProductNonNegative(p, 1.0 - f);
  }

  lemma {:induction false} ProductOfProbabilities(terms: seq<ErrorTerm>)
    requires AreProbabilities(terms)
    ensures 0.0 <= Product(terms) <= 1.0
    decreases |terms|
  {
    if terms != [] {
      ProductOfProbabilities(terms[..|terms| - 1]);
      ProductStays(Product(terms[..|terms| - 1]), Success(terms[|terms| - 1]));
    }
  }

  lemma {:induction false} SumOfProbabilities(terms: seq<ErrorTerm>)
    requires AreProbabilities(terms)
    ensures 0.0 <= Sum(terms)
    decreases |terms|
  {
    if terms != [] {
      SumOfProbabilities(terms[..|terms| - 1]);
    }
  }

  /** Composing valid terms raises over the combined term only where plain sums are given the unit of a probability
      and exceed one: the multiplicative law stays a probability, and the additive one is unresolved first. */
  lemma BadTermExactly(root: real -> real, terms: seq<ErrorTerm>, assumption: Assumption)
    requires terms != [] && AllValid(terms)
    ensures Composed(root, terms, assumption) == Refused(BadTerm) <==>
            Admissible(terms, assumption) in {Some(L2), Some(L6)} && terms[0].unit == PROBABILITY && Sum(terms) > 1.0
  {
    if Admissible(terms, assumption).Some? && terms[0].unit == PROBABILITY {
      assert forall t :: t in terms ==> DimensionOf(t) == DimensionOf(terms[0]);
      assert AreProbabilities(terms);
      ProductOfProbabilities(terms);
      SumOfProbabilities(terms);
    }
  }

  // ----- Folding in groups -----

  ghost predicate Associative<A(!new)>(f: (A, A) -> A) {
    forall a, b, c :: f(f(a, b), c) == f(a, f(b, c))
  }

  /** f over what g reads from the terms of a non-empty list. */
  function Fold<A>(f: (A, A) -> A, g: ErrorTerm -> A, terms: seq<ErrorTerm>): A
    requires terms != []
  {
    if |terms| == 1 then g(terms[0]) else f(Fold(f, g, terms[..|terms| - 1]), g(terms[|terms| - 1]))
  }

  lemma {:induction false} FoldJoins<A(!new)>(f: (A, A) -> A, g: ErrorTerm -> A, s: seq<ErrorTerm>, t: seq<ErrorTerm>)
    requires Associative(f) && s != [] && t != []
    ensures Fold(f, g, s + t) == f(Fold(f, g, s), Fold(f, g, t))
    decreases |t|
  {
    var before, last := t[..|t| - 1], t[|t| - 1];
    assert (s + t)[..|s + t| - 1] == s + before;
    if before == [] {
      assert s + before == s;
    } else {
      FoldJoins(f, g, s, before);
    }
  }

  function Flatten(groups: seq<seq<ErrorTerm>>): seq<ErrorTerm> {
    if groups == [] then [] else Flatten(groups[..|groups| - 1]) + groups[|groups| - 1]
  }

  predicate NonEmpty(groups: seq<seq<ErrorTerm>>) {
    groups != [] && forall i :: 0 <= i < |groups| ==> groups[i] != []
  }

  /** Each part stands for its group under g. */
  ghost predicate Stands<A(!new)>(f: (A, A) -> A, g: ErrorTerm -> A, groups: seq<seq<ErrorTerm>>,
      parts: seq<ErrorTerm>) {
    NonEmpty(groups) && |parts| == |groups| && forall i :: 0 <= i < |groups| ==> g(parts[i]) == Fold(f, g, groups[i])
  }

  lemma {:induction false} FoldRegroups<A(!new)>(f: (A, A) -> A, g: ErrorTerm -> A, groups: seq<seq<ErrorTerm>>,
      parts: seq<ErrorTerm>)
    requires Associative(f) && Stands(f, g, groups, parts)
    ensures Flatten(groups) != [] && Fold(f, g, parts) == Fold(f, g, Flatten(groups))
    decreases |groups|
  {
    var n := |groups| - 1;
    if n == 0 {
      assert Flatten(groups) == groups[0];
    } else {
      FoldRegroups(f, g, groups[..n], parts[..n]);
      FoldJoins(f, g, Flatten(groups[..n]), groups[n]);
    }
  }

  // ----- Each quantity of a composition is such a fold -----

  function Times(a: real, b: real): real { a * b }
  function Plus(a: real, b: real): real { a + b }
  function Link(a: string, b: string): string { a + "+" + b }
  function Shared(a: Domain, b: Domain): Domain { if a == b then a else MODEL }

  lemma OperationsAssociate()
    ensures Associative(Times) && Associative(Plus) && Associative(Link) && Associative(Shared)
    ensures Associative(JoinEpochs) && Associative(LeastConfidence)
  {
    forall a, b, c
      ensures Link(Link(a, b), c) == Link(a, Link(b, c))
    {
      assert (a + "+" + b) + "+" + c == a + "+" + (b + "+" + c);
    }
  }

  lemma {:induction false} ProductIsFold(terms: seq<ErrorTerm>)
    requires terms != []
    ensures Product(terms) == Fold(Times, Success, terms)
    decreases |terms|
  {
    if |terms| > 1 {
      ProductIsFold(terms[..|terms| - 1]);
    } else {
      assert Product(terms[..0]) == 1.0;
    }
  }

  function ValueOf(t: ErrorTerm): real { t.value }
  function NameOf(t: ErrorTerm): string { t.name }
  function ConfidenceOf(t: ErrorTerm): Option<real> { t.confidence }
  function DomainOf(t: ErrorTerm): Domain { t.domain }

  lemma {:induction false} SumIsFold(terms: seq<ErrorTerm>)
    requires terms != []
    ensures Sum(terms) == Fold(Plus, ValueOf, terms)
    decreases |terms|
  {
    if |terms| > 1 {
      SumIsFold(terms[..|terms| - 1]);
    } else {
      assert Sum(terms[..0]) == 0.0;
    }
  }

  lemma {:induction false} NameIsFold(terms: seq<ErrorTerm>)
    requires terms != []
    ensures JoinNames(terms) == Fold(Link, NameOf, terms)
    decreases |terms|
  {
    if |terms| > 1 {
      NameIsFold(terms[..|terms| - 1]);
    }
  }

  lemma {:induction false} EpochIsFold(terms: seq<ErrorTerm>)
    requires terms != []
    ensures EpochsOf(terms) == Fold(JoinEpochs, EpochOf, terms)
    decreases |terms|
  {
    if |terms| > 1 {
      EpochIsFold(terms[..|terms| - 1]);
    } else {
      assert EpochsOf(terms[..0]) == NoEpoch;
    }
  }

  lemma {:induction false} ConfidenceIsFold(terms: seq<ErrorTerm>)
    requires terms != []
    ensures Confidence(terms) == Fold(LeastConfidence, ConfidenceOf, terms)
    decreases |terms|
  {
    if |terms| > 1 {
      ConfidenceIsFold(terms[..|terms| - 1]);
    } else {
      assert Confidence(terms[..0]) == None;
    }
  }

  lemma {:induction false} DomainIsFold(terms: seq<ErrorTerm>)
    requires terms != []
    ensures (if SameDomain(terms) then terms[0].domain else MODEL) == Fold(Shared, DomainOf, terms)
    ensures SameDomain(terms) ==> Fold(Shared, DomainOf, terms) == terms[0].domain
    decreases |terms|
  {
    if |terms| > 1 {
      var before := terms[..|terms| - 1];
      DomainIsFold(before);
      if SameDomain(terms) {
        assert SameDomain(before);
      } else if SameDomain(before) {
        assert terms[|terms| - 1].domain != terms[0].domain;
      }
    }
  }

  // ----- Regrouping -----

  predicate Regroupable(law: Law) {
    law == L1 || law == L2 || law == L3 || law == L6
  }

  /** Every group composes on its own, under this law, to its part. */
  ghost predicate Parts(root: real -> real, law: Law, assumption: Assumption, groups: seq<seq<ErrorTerm>>,
      parts: seq<ErrorTerm>) {
    && NonEmpty(groups) && |parts| == |groups|
    && forall i :: 0 <= i < |groups| ==> IsPart(root, law, assumption, groups[i], parts[i])
  }

  ghost predicate IsPart(root: real -> real, law: Law, assumption: Assumption, group: seq<ErrorTerm>, part: ErrorTerm)
    requires group != []
  {
    Admissible(group, assumption) == Some(law) && Outcome(Composed(root, group, assumption)) == Some(part)
  }

  lemma PartStands(root: real -> real, law: Law, assumption: Assumption, group: seq<ErrorTerm>, part: ErrorTerm)
    requires group != [] && Regroupable(law) && IsPart(root, law, assumption, group, part)
    ensures DimensionOf(part) == DimensionOf(group[0]) && part.independence == assumption
    ensures NameOf(part) == Fold(Link, NameOf, group) && DomainOf(part) == Fold(Shared, DomainOf, group)
    ensures EpochOf(part) == Fold(JoinEpochs, EpochOf, group)
            && ConfidenceOf(part) == Fold(LeastConfidence, ConfidenceOf, group)
    ensures if law == L1 then Success(part) == Fold(Times, Success, group)
            else ValueOf(part) == Fold(Plus, ValueOf, group)
  {
    NameIsFold(group);
    DomainIsFold(group);
    EpochIsFold(group);
    ConfidenceIsFold(group);
    ProductIsFold(group);
    SumIsFold(group);
  }

  lemma {:induction false} InFlatten(groups: seq<seq<ErrorTerm>>, t: ErrorTerm)
    ensures t in Flatten(groups) <==> exists i :: 0 <= i < |groups| && t in groups[i]
    decreases |groups|
  {
    if groups != [] {
      var n := |groups| - 1;
      InFlatten(groups[..n], t);
      if t in Flatten(groups[..n]) {
        var i :| 0 <= i < n && t in groups[..n][i];
        assert t in groups[i];
      }
    }
  }

  lemma {:induction false} FlattenStarts(groups: seq<seq<ErrorTerm>>)
    requires NonEmpty(groups)
    ensures Flatten(groups) != [] && Flatten(groups)[0] == groups[0][0]
    decreases |groups|
  {
    if |groups| > 1 {
      FlattenStarts(groups[..|groups| - 1]);
    } else {
      assert Flatten(groups) == groups[0];
    }
  }

  /** Grouping does not change the combined quantities. */
  lemma QuantitiesRegroup(root: real -> real, law: Law, assumption: Assumption, groups: seq<seq<ErrorTerm>>,
      parts: seq<ErrorTerm>)
    requires Regroupable(law) && Parts(root, law, assumption, groups, parts)
    ensures var flat := Flatten(groups);
            && flat != [] && EpochsOf(parts) == EpochsOf(flat) && Confidence(parts) == Confidence(flat)
            && JoinNames(parts) == JoinNames(flat)
            && (if SameDomain(parts) then parts[0].domain else MODEL) ==
               (if SameDomain(flat) then flat[0].domain else MODEL)
            && (if law == L1 then Product(parts) == Product(flat) else Sum(parts) == Sum(flat))
  {
    OperationsAssociate();
    forall i | 0 <= i < |groups|
      ensures groups[i] != [] && IsPart(root, law, assumption, groups[i], parts[i])
    {
    }
    forall i | 0 <= i < |groups|
      ensures NameOf(parts[i]) == Fold(Link, NameOf, groups[i])
              && DomainOf(parts[i]) == Fold(Shared, DomainOf, groups[i])
      ensures EpochOf(parts[i]) == Fold(JoinEpochs, EpochOf, groups[i])
      ensures ConfidenceOf(parts[i]) == Fold(LeastConfidence, ConfidenceOf, groups[i])
      ensures if law == L1 then Success(parts[i]) == Fold(Times, Success, groups[i])
              else ValueOf(parts[i]) == Fold(Plus, ValueOf, groups[i])
    {
      PartStands(root, law, assumption, groups[i], parts[i]);
    }
    FlattenStarts(groups);
    var flat := Flatten(groups);
    FoldRegroups(Link, NameOf, groups, parts);
    NameIsFold(parts);
    NameIsFold(flat);
    FoldRegroups(Shared, DomainOf, groups, parts);
    DomainIsFold(parts);
    DomainIsFold(flat);
    FoldRegroups(JoinEpochs, EpochOf, groups, parts);
    EpochIsFold(parts);
    EpochIsFold(flat);
    FoldRegroups(LeastConfidence, ConfidenceOf, groups, parts);
    ConfidenceIsFold(parts);
    ConfidenceIsFold(flat);
    if law == L1 {
      FoldRegroups(Times, Success, groups, parts);
      ProductIsFold(parts);
      ProductIsFold(flat);
    } else {
      FoldRegroups(Plus, ValueOf, groups, parts);
      SumIsFold(parts);
      SumIsFold(flat);
    }
  }

  lemma GroupFacts(root: real -> real, law: Law, assumption: Assumption, groups: seq<seq<ErrorTerm>>,
      parts: seq<ErrorTerm>, i: nat)
    requires Regroupable(law) && Parts(root, law, assumption, groups, parts) && i < |groups|
    ensures groups[i] != [] && parts[i].independence == assumption
    ensures forall t :: t in groups[i] ==> DimensionOf(t) == DimensionOf(parts[i])
    ensures assumption == INDEPENDENT ==> forall t :: t in groups[i] ==> ClaimsIndependence(t)
    ensures groups[i][0] in Flatten(groups)
  {
    assert IsPart(root, law, assumption, groups[i], parts[i]);
    PartStands(root, law, assumption, groups[i], parts[i]);
    assert SameDimension(groups[i]);
    assert groups[i][0] in groups[i];
    InFlatten(groups, groups[i][0]);
  }

  /** Every term of the whole has the dimension of some part, and the other way round. */
  lemma DimensionsRegroup(root: real -> real, law: Law, assumption: Assumption, groups: seq<seq<ErrorTerm>>,
      parts: seq<ErrorTerm>)
    requires Regroupable(law) && Parts(root, law, assumption, groups, parts)
    ensures Flatten(groups) != [] && DimensionOf(parts[0]) == DimensionOf(Flatten(groups)[0])
    ensures SameDimension(parts) <==> SameDimension(Flatten(groups))
  {
    FlattenStarts(groups);
    GroupFacts(root, law, assumption, groups, parts, 0);
    var flat := Flatten(groups);
    if SameDimension(parts) {
      forall k | 0 <= k < |flat|
        ensures DimensionOf(flat[k]) == DimensionOf(flat[0])
      {
        InFlatten(groups, flat[k]);
        var i :| 0 <= i < |groups| && flat[k] in groups[i];
        GroupFacts(root, law, assumption, groups, parts, i);
      }
    }
    if SameDimension(flat) {
      forall i | 0 <= i < |parts|
        ensures DimensionOf(parts[i]) == DimensionOf(parts[0])
      {
        GroupFacts(root, law, assumption, groups, parts, i);
        var k :| 0 <= k < |flat| && flat[k] == groups[i][0];
      }
    }
  }

  lemma ClaimsRegroup(root: real -> real, law: Law, groups: seq<seq<ErrorTerm>>, parts: seq<ErrorTerm>)
    requires Regroupable(law) && Parts(root, law, INDEPENDENT, groups, parts)
    ensures forall t :: t in Flatten(groups) || t in parts ==> ClaimsIndependence(t)
  {
    forall t | t in Flatten(groups)
      ensures ClaimsIndependence(t)
    {
      InFlatten(groups, t);
      var i :| 0 <= i < |groups| && t in groups[i];
      GroupFacts(root, law, INDEPENDENT, groups, parts, i);
    }
    forall t | t in parts
      ensures ClaimsIndependence(t)
    {
      var i :| 0 <= i < |parts| && t == parts[i];
      GroupFacts(root, law, INDEPENDENT, groups, parts, i);
    }
  }

  lemma AdmissibleAlike(s: seq<ErrorTerm>, t: seq<ErrorTerm>, assumption: Assumption)
    requires s != [] && t != [] && (SameDimension(s) <==> SameDimension(t)) && DimensionOf(s[0]) == DimensionOf(t[0])
    requires assumption == INDEPENDENT ==> forall x :: x in s || x in t ==> ClaimsIndependence(x)
    requires EpochsOf(s) == EpochsOf(t)
    ensures Admissible(s, assumption) == Admissible(t, assumption)
  {
  }

  lemma SealedAlike(root: real -> real, law: Law, assumption: Assumption, s: seq<ErrorTerm>, t: seq<ErrorTerm>)
    requires s != [] && t != [] && Regroupable(law) && DimensionOf(s[0]) == DimensionOf(t[0])
    requires EpochsOf(s) == EpochsOf(t) && Confidence(s) == Confidence(t) && JoinNames(s) == JoinNames(t)
    requires (if SameDomain(s) then s[0].domain else MODEL) == (if SameDomain(t) then t[0].domain else MODEL)
    requires if law == L1 then Product(s) == Product(t) else Sum(s) == Sum(t)
    ensures Sealed(root, law, assumption, s) == Sealed(root, law, assumption, t)
  {
    assert LawValue(root, law, s) == LawValue(root, law, t);
  }

  lemma LawOfParts(root: real -> real, law: Law, assumption: Assumption, groups: seq<seq<ErrorTerm>>,
      parts: seq<ErrorTerm>)
    requires Regroupable(law) && Parts(root, law, assumption, groups, parts)
    ensures Admissible(parts, assumption).Some? ==> Admissible(parts, assumption) == Some(law)
  {
    assert IsPart(root, law, assumption, groups[0], parts[0]);
    PartStands(root, law, assumption, groups[0], parts[0]);
  }

  /** Composing groups first and then their results gives the very term that composing everything at once gives, or
      neither gives one: same value, name, domain, epoch and confidence. */
  lemma GroupingDoesNotMatter(root: real -> real, law: Law, assumption: Assumption, groups: seq<seq<ErrorTerm>>,
      parts: seq<ErrorTerm>)
    requires Regroupable(law) && Parts(root, law, assumption, groups, parts)
    ensures Outcome(Composed(root, parts, assumption)) == Outcome(Composed(root, Flatten(groups), assumption))
  {
    var flat := Flatten(groups);
    QuantitiesRegroup(root, law, assumption, groups, parts);
    DimensionsRegroup(root, law, assumption, groups, parts);
    if assumption == INDEPENDENT {
      ClaimsRegroup(root, law, groups, parts);
    }
    AdmissibleAlike(parts, flat, assumption);
    LawOfParts(root, law, assumption, groups, parts);
    SealedAlike(root, law, assumption, parts, flat);
    OutcomeIs(root, parts, assumption);
    OutcomeIs(root, flat, assumption);
  }

  // ----- Correlated variances -----

  ghost predicate IsRoot(root: real -> real) {
    forall x :: x >= 0.0 ==> root(x) >= 0.0 && root(x) * root(x) == x
  }

  predicate CorrelationsAre(terms: seq<ErrorTerm>, rho: real) {
    forall i, j :: 0 <= i < j < |terms| ==> Correlation(terms[i], terms[j]) == Some(rho)
  }

  lemma {:induction false} NoCrossRow(root: real -> real, terms: seq<ErrorTerm>, i: nat, n: nat)
    requires i < n <= |terms| && CorrelationsAre(terms, 0.0)
    ensures CrossRow(root, terms, i, n) == 0.0
    decreases n
  {
    if n > i + 1 {
      NoCrossRow(root, terms, i, n - 1);
    }
  }

  lemma {:induction false} NoCross(root: real -> real, terms: seq<ErrorTerm>, i: nat)
    requires i <= |terms| && CorrelationsAre(terms, 0.0)
    ensures Cross(root, terms, i) == 0.0
  {
    if i > 0 {
      NoCross(root, terms, i - 1);
      NoCrossRow(root, terms, i - 1, |terms|);
    }
  }

  lemma {:induction false} SquaresAreVariances(root: real -> real, terms: seq<ErrorTerm>)
    requires IsRoot(root) && HaveDeviations(terms)
    ensures SumOfSquares(root, terms) == SumOfVariances(terms)
    decreases |terms|
  {
    if terms != [] {
      SquaresAreVariances(root, terms[..|terms| - 1]);
    }
  }

  lemma CorrelatedLaw(terms: seq<ErrorTerm>)
    requires terms != [] && Admissible(terms, CORRELATED).Some?
    ensures Admissible(terms, CORRELATED) == Some(L5)
  {
  }

  lemma CorrelatedOutcome(root: real -> real, terms: seq<ErrorTerm>, t: ErrorTerm)
    requires Outcome(Composed(root, terms, CORRELATED)) == Some(t)
    ensures terms != [] && HaveDeviations(terms) && t.value == LawValue(root, L5, terms)
  {
    OutcomeSome(root, terms, CORRELATED);
    CorrelatedLaw(terms);
  }

  lemma CorrelatedValue(root: real -> real, terms: seq<ErrorTerm>)
    requires terms != []
    ensures LawValue(root, L5, terms) == SumOfSquares(root, terms) + Cross(root, terms, |terms|)
  {
  }

  lemma IndependentLaw(terms: seq<ErrorTerm>)
    requires terms != [] && (terms[0].kind == VARIANCE || terms[0].kind == STD_DEV)
            && Admissible(terms, INDEPENDENT).Some?
    ensures Admissible(terms, INDEPENDENT) == Some(L4)
  {
  }

  lemma IndependentOutcome(root: real -> real, terms: seq<ErrorTerm>, t: ErrorTerm)
    requires Outcome(Composed(root, terms, INDEPENDENT)) == Some(t)
    requires terms != [] && (terms[0].kind == VARIANCE || terms[0].kind == STD_DEV)
    ensures t.value == LawValue(root, L4, terms)
  {
    OutcomeSome(root, terms, INDEPENDENT);
    IndependentLaw(terms);
  }

  lemma CorrelatedKind(root: real -> real, terms: seq<ErrorTerm>)
    requires Outcome(Composed(root, terms, CORRELATED)).Some?
    ensures terms != [] && (terms[0].kind == VARIANCE || terms[0].kind == STD_DEV)
  {
    OutcomeSome(root, terms, CORRELATED);
  }

  /** With every correlation zero the correlated law gives what the independent one gives. */
  lemma UncorrelatedIsIndependent(root: real -> real, terms: seq<ErrorTerm>, c: ErrorTerm)
    requires IsRoot(root) && CorrelationsAre(terms, 0.0)
    requires Outcome(Composed(root, terms, CORRELATED)) == Some(c)
    ensures c.value == SumOfVariances(terms)
    ensures forall t :: Outcome(Composed(root, terms, INDEPENDENT)) == Some(t) ==> t.value == c.value
  {
    CorrelatedOutcome(root, terms, c);
    CorrelatedValue(root, terms);
    CorrelatedKind(root, terms);
    NoCross(root, terms, |terms|);
    SquaresAreVariances(root, terms);
    forall t | Outcome(Composed(root, terms, INDEPENDENT)) == Some(t)
      ensures t.value == c.value
    {
      IndependentOutcome(root, terms, t);
    }
  }

  predicate CorrelationsAtMostOne(terms: seq<ErrorTerm>) {
    forall i, j :: 0 <= i < j < |terms| && Correlation(terms[i], terms[j]).Some? ==>
      Correlation(terms[i], terms[j]).value <= 1.0
  }

  predicate DeviationsNonNegative(root: real -> real, terms: seq<ErrorTerm>) {
    forall i :: 0 <= i < |terms| ==> Deviation(root, terms[i]) >= 0.0
  }

  /** The deviations of a list of terms, and the sum of all of them. */
  function Deviations(root: real -> real, terms: seq<ErrorTerm>): nat -> real {
    (i: nat) => if i < |terms| then Deviation(root, terms[i]) else 0.0
  }

  function SumOfDeviations(root: real -> real, terms: seq<ErrorTerm>): real {
    Total(Deviations(root, terms), |terms|)
  }

  function Total(f: nat -> real, n: nat): real {
    if n == 0 then 0.0 else Total(f, n - 1) + f(n - 1)
  }

  /** Of the entries x above the diagonal: those of row i up to column n, and those of the first i rows. */
  function RowTotal(x: (nat, nat) -> real, i: nat, n: nat): real
    requires i < n
    decreases n
  {
    if n == i + 1 then 0.0 else RowTotal(x, i, n - 1) + x(i, n - 1)
  }

  function Triangle(x: (nat, nat) -> real, i: nat, n: nat): real
    requires i <= n
  {
    if i == 0 then 0.0 else Triangle(x, i - 1, n) + RowTotal(x, i - 1, n)
  }

  /** The first i entries of column n. */
  function ColumnTotal(x: (nat, nat) -> real, i: nat, n: nat): real {
    if i == 0 then 0.0 else ColumnTotal(x, i - 1, n) + x(i - 1, n)
  }

  lemma {:induction false} OneMoreColumn(x: (nat, nat) -> real, i: nat, n: nat)
    requires i <= n
    ensures Triangle(x, i, n + 1) == Triangle(x, i, n) + ColumnTotal(x, i, n)
  {
    if i > 0 {
      OneMoreColumn(x, i - 1, n);
    }
  }

  function Square(a: real): real {
    a * a
  }

  function Twice(a: real, b: real): real {
    2.0 * a * b
  }

  /** What a square and a doubled product satisfy; kept abstract so that the sums below stay linear. */
  ghost predicate Expands(square: real -> real, twice: (real, real) -> real, a: real, b: real) {
    square(a + b) == square(a) + (square(b) + twice(a, b))
  }

  ghost predicate Distributes(twice: (real, real) -> real, a: real, b: real, c: real) {
    twice(a + b, c) == twice(a, c) + twice(b, c)
  }

  ghost predicate Binomial(square: real -> real, twice: (real, real) -> real) {
    && square(0.0) == 0.0 && (forall c :: twice(0.0, c) == 0.0)
    && (forall a, b :: Expands(square, twice, a, b)) && (forall a, b, c :: Distributes(twice, a, b, c))
  }

  lemma SquareIsBinomial()
    ensures Binomial(Square, Twice)
  {
  }

  ghost predicate EntriesBounded(twice: (real, real) -> real, x: (nat, nat) -> real, d: nat -> real, n: nat) {
    forall i, j :: 0 <= i < j < n ==> x(i, j) <= twice(d(i), d(j))
  }

  ghost predicate Squares(square: real -> real, q: nat -> real, d: nat -> real, n: nat) {
    forall i :: 0 <= i < n ==> q(i) == square(d(i))
  }

  lemma {:induction false} ColumnBound(square: real -> real, twice: (real, real) -> real, x: (nat, nat) -> real,
      d: nat -> real, i: nat, n: nat, m: nat)
    requires Binomial(square, twice) && i <= n < m && EntriesBounded(twice, x, d, m)
    ensures ColumnTotal(x, i, n) <= twice(Total(d, i), d(n))
  {
    if i > 0 {
      ColumnBound(square, twice, x, d, i - 1, n, m);
      assert Distributes(twice, Total(d, i - 1), d(i - 1), d(n));
      assert x(i - 1, n) <= twice(d(i - 1), d(n));
    }
  }

  lemma TriangleGrows(x: (nat, nat) -> real, n: nat)
    ensures Triangle(x, n + 1, n + 1) == Triangle(x, n, n) + ColumnTotal(x, n, n)
  {
    OneMoreColumn(x, n, n);
    assert RowTotal(x, n, n + 1) == 0.0;
  }

  lemma SquareGrows(square: real -> real, twice: (real, real) -> real, q: nat -> real, d: nat -> real, k: nat, m: nat)
    requires Binomial(square, twice) && k < m && Squares(square, q, d, m)
    ensures square(Total(d, k + 1)) == square(Total(d, k)) + (q(k) + twice(Total(d, k), d(k)))
  {
    assert Expands(square, twice, Total(d, k), d(k));
  }

  /** Squares and column sums so bounded together stay within the square of the sum. */
  predicate Grows(square: real -> real, twice: (real, real) -> real, x: (nat, nat) -> real, q: nat -> real,
      d: nat -> real, k: nat) {
    && ColumnTotal(x, k, k) <= twice(Total(d, k), d(k))
    && square(Total(d, k + 1)) == square(Total(d, k)) + (q(k) + twice(Total(d, k), d(k)))
  }

  lemma {:induction false} TriangleWithin(
      square: real -> real, twice: (real, real) -> real, x: (nat, nat) -> real, q: nat -> real, d: nat -> real, n: nat)
    requires square(0.0) == 0.0 && forall k: nat :: k < n ==> Grows(square, twice, x, q, d, k)
    ensures Total(q, n) + Triangle(x, n, n) <= square(Total(d, n))
  {
    if n > 0 {
      TriangleWithin(square, twice, x, q, d, n - 1);
      TriangleGrows(x, n - 1);
      assert Grows(square, twice, x, q, d, n - 1);
    }
  }

  /** Squares and bounded cross entries together stay within the square of the sum. */
  lemma TriangleWithinSquare(
      square: real -> real, twice: (real, real) -> real, x: (nat, nat) -> real, q: nat -> real, d: nat -> real, n: nat)
    requires Binomial(square, twice) && EntriesBounded(twice, x, d, n) && Squares(square, q, d, n)
    ensures Total(q, n) + Triangle(x, n, n) <= square(Total(d, n))
  {
    forall k: nat | k < n
      ensures Grows(square, twice, x, q, d, k)
    {
      ColumnBound(square, twice, x, d, k, k, n);
      SquareGrows(square, twice, q, d, k, n);
    }
    TriangleWithin(square, twice, x, q, d, n);
  }

  lemma CrossTermBound(root: real -> real, a: ErrorTerm, b: ErrorTerm)
    requires Deviation(root, a) >= 0.0 && Deviation(root, b) >= 0.0
    requires Correlation(a, b).Some? ==> Correlation(a, b).value <= 1.0
    ensures CrossTerm(root, a, b) <= Twice(Deviation(root, a), Deviation(root, b))
  {
    var x := Deviation(root, a) * Deviation(root, b);
    if Correlation(a, b).Some? {
      var rho := Correlation(a, b).value;
      assert (1.0 - rho) * x >= 0.0;
      assert 2.0 * rho * Deviation(root, a) * Deviation(root, b) == 2.0 * (rho * x);
    }
  }

  function CrossTerms(root: real -> real, terms: seq<ErrorTerm>): (nat, nat) -> real {
    (i: nat, j: nat) => if i < |terms| && j < |terms| then CrossTerm(root, terms[i], terms[j]) else 0.0
  }

  function SquaredDeviations(root: real -> real, terms: seq<ErrorTerm>): nat -> real {
    (i: nat) => if i < |terms| then Deviation(root, terms[i]) * Deviation(root, terms[i]) else 0.0
  }

  lemma {:induction false} CrossRowIsRow(root: real -> real, terms: seq<ErrorTerm>, i: nat, n: nat)
    requires i < n <= |terms|
    ensures CrossRow(root, terms, i, n) == RowTotal(CrossTerms(root, terms), i, n)
    decreases n
  {
    if n > i + 1 {
      CrossRowIsRow(root, terms, i, n - 1);
    }
  }

  lemma {:induction false} CrossIsTriangle(root: real -> real, terms: seq<ErrorTerm>, i: nat)
    requires i <= |terms|
    ensures Cross(root, terms, i) == Triangle(CrossTerms(root, terms), i, |terms|)
  {
    if i > 0 {
      CrossIsTriangle(root, terms, i - 1);
      CrossRowIsRow(root, terms, i - 1, |terms|);
    }
  }

  lemma {:induction false} SquaresAreTotal(root: real -> real, terms: seq<ErrorTerm>, n: nat)
    requires n <= |terms|
    ensures SumOfSquares(root, terms[..n]) == Total(SquaredDeviations(root, terms), n)
  {
    if n > 0 {
      SquaresAreTotal(root, terms, n - 1);
      assert terms[..n][..n - 1] == terms[..n - 1];
    }
  }

  lemma EntriesAreBounded(root: real -> real, terms: seq<ErrorTerm>)
    requires CorrelationsAtMostOne(terms) && DeviationsNonNegative(root, terms)
    ensures EntriesBounded(Twice, CrossTerms(root, terms), Deviations(root, terms), |terms|)
    ensures Squares(Square, SquaredDeviations(root, terms), Deviations(root, terms), |terms|)
  {
    var x, d := CrossTerms(root, terms), Deviations(root, terms);
    forall i: nat, j: nat | i < j < |terms|
      ensures x(i, j) <= Twice(d(i), d(j))
    {
      CrossTermBound(root, terms[i], terms[j]);
    }
  }

  lemma CrossTotal(root: real -> real, terms: seq<ErrorTerm>)
    requires CorrelationsAtMostOne(terms) && DeviationsNonNegative(root, terms)
    ensures SumOfSquares(root, terms) + Cross(root, terms, |terms|) <= Square(SumOfDeviations(root, terms))
  {
    EntriesAreBounded(root, terms);
    SquareIsBinomial();
    TriangleWithinSquare(Square, Twice, CrossTerms(root, terms), SquaredDeviations(root, terms),
                         Deviations(root, terms), |terms|);
    CrossIsTriangle(root, terms, |terms|);
    SquaresAreTotal(root, terms, |terms|);
    assert terms[..|terms|] == terms;
  }

  /** With correlations at most one and non-negative deviations, the combined variance is at most the square of the
      sum of the deviations. */
  lemma CorrelatedVarianceIsBounded(root: real -> real, terms: seq<ErrorTerm>, c: ErrorTerm)
    requires Outcome(Composed(root, terms, CORRELATED)) == Some(c)
    requires CorrelationsAtMostOne(terms) && DeviationsNonNegative(root, terms)
    ensures c.value <= Square(SumOfDeviations(root, terms))
  {
    CorrelatedOutcome(root, terms, c);
    CorrelatedValue(root, terms);
    CrossTotal(root, terms);
  }

  /** A unit deviation said to be fully anticorrelated with each of the named terms. */
  function Anticorrelated(name: string, others: map<string, real>): ErrorTerm {
    ErrorTerm(name, 1.0, DIMENSIONLESS, GATE, STD_DEV, CORRELATED, others, None, None, None, None, None, "-")
  }

  /** Coefficients in range do not make the result a variance: three unit deviations, each pair at minus one,
      compose to minus three. */
  lemma CorrelatedVarianceCanBeNegative(root: real -> real)
    ensures var a, b := Anticorrelated("a", map["b" := -1.0, "c" := -1.0]), Anticorrelated("b", map["c" := -1.0]);
            var c := Anticorrelated("c", map[]);
            var r := Composed(root, [a, b, c], CORRELATED);
            r.Ok? && r.value.combined.Some? && r.value.combined.value.value == -3.0
  {
    var a, b := Anticorrelated("a", map["b" := -1.0, "c" := -1.0]), Anticorrelated("b", map["c" := -1.0]);
    var c := Anticorrelated("c", map[]);
    var terms := [a, b, c];
    AnticorrelatedCross(root, terms, a, b, c);
    assert terms[..2] == [a, b] && [a, b][..1] == [a] && [a][..0] == [];
    assert SumOfSquares(root, [a]) == 1.0 && SumOfSquares(root, [a, b]) == 2.0 && SumOfSquares(root, terms) == 3.0;
    assert EpochsOf([a]) == NoEpoch && EpochsOf([a, b]) == NoEpoch && EpochsOf(terms) == NoEpoch;
    assert TheLaw(STD_DEV, CORRELATED) == Some(L5);
  }

  lemma AnticorrelatedCross(root: real -> real, terms: seq<ErrorTerm>, a: ErrorTerm, b: ErrorTerm, c: ErrorTerm)
    requires a == Anticorrelated("a", map["b" := -1.0, "c" := -1.0]) && b == Anticorrelated("b", map["c" := -1.0])
    requires c == Anticorrelated("c", map[]) && terms == [a, b, c]
    ensures AllCorrelated(terms) && Cross(root, terms, 3) == -6.0
  {
    assert Correlation(a, b) == Some(-1.0) && Correlation(a, c) == Some(-1.0) && Correlation(b, c) == Some(-1.0);
    assert CrossTerm(root, a, b) == -2.0 && CrossTerm(root, a, c) == -2.0 && CrossTerm(root, b, c) == -2.0;
    assert CrossRow(root, terms, 0, 1) == 0.0 && CrossRow(root, terms, 0, 2) == -2.0
           && CrossRow(root, terms, 0, 3) == -4.0;
    assert CrossRow(root, terms, 1, 2) == 0.0 && CrossRow(root, terms, 1, 3) == -2.0
           && CrossRow(root, terms, 2, 3) == 0.0;
    assert Cross(root, terms, 0) == 0.0 && Cross(root, terms, 1) == -4.0 && Cross(root, terms, 2) == -6.0;
  }
}
