/** When composing error terms gives a combined term, of what kind and unit it is, and that variances may be composed in
    groups. */
module ErrorOutcomes {
  import opened Common
  import opened ErrorAlgebra
  import opened ErrorLaws

  // ----- The registry, read by kind and assumption -----

  /** Which law composes a kind of term under an assumption, if any does. */
  lemma LawsByKind(kind: Kind, assumption: Assumption)
    ensures TheLaw(kind, assumption) == Some(L1) <==>
            assumption == INDEPENDENT && kind in {SUCCESS_PROBABILITY, FAILURE_PROBABILITY, INFIDELITY}
    ensures TheLaw(kind, assumption) == Some(L2) <==> assumption == INDEPENDENT && kind == LOG_SUCCESS
    ensures TheLaw(kind, assumption) == Some(L3) <==>
            assumption == SMALL_ERROR && kind in {ADDITIVE_ERROR, INFIDELITY, FAILURE_PROBABILITY}
    ensures TheLaw(kind, assumption) == Some(L4) <==> assumption == INDEPENDENT && kind in {VARIANCE, STD_DEV}
    ensures TheLaw(kind, assumption) == Some(L5) <==> assumption == CORRELATED && kind in {VARIANCE, STD_DEV}
    ensures TheLaw(kind, assumption) == Some(L6) <==> assumption == INDEPENDENT && kind == DURATION
  {
  }

  // ----- When a combined term comes out -----

  /** All terms that name a calibration epoch name the same one. */
  predicate OneEpochOnly(terms: seq<ErrorTerm>) {
    forall s, t :: s in terms && t in terms && s.epoch.Some? && t.epoch.Some? ==> s.epoch == t.epoch
  }

  lemma {:induction false} EpochsExactly(terms: seq<ErrorTerm>)
    ensures EpochsOf(terms).ManyEpochs? <==> !OneEpochOnly(terms)
    ensures EpochsOf(terms).NoEpoch? <==> forall t :: t in terms ==> t.epoch == None
    ensures forall t :: t in terms && t.epoch.Some? && !EpochsOf(terms).ManyEpochs? ==>
              EpochsOf(terms) == OneEpoch(t.epoch.value)
    ensures EpochsOf(terms).OneEpoch? ==> exists t :: t in terms && t.epoch == Some(EpochsOf(terms).epoch)
    decreases |terms|
  {
    if terms != [] {
      var before, last := terms[..|terms| - 1], terms[|terms| - 1];
      EpochsExactly(before);
      assert terms == before + [last];
      assert forall t :: t in terms <==> t in before || t == last;
    }
  }

  predicate SameUnitAndKind(terms: seq<ErrorTerm>) {
    forall s, t :: s in terms && t in terms ==> s.unit == t.unit && s.kind == t.kind
  }

  lemma SameDimensionIs(terms: seq<ErrorTerm>)
    ensures SameDimension(terms) <==> SameUnitAndKind(terms)
  {
    if SameUnitAndKind(terms) {
      forall i | 0 <= i < |terms|
        ensures DimensionOf(terms[i]) == DimensionOf(terms[0])
      {
        assert terms[i] in terms && terms[0] in terms;
      }
    }
  }

  /** The terms may be composed as assumed: alike, of one epoch, and independent only where every term claims it. */
  predicate MayCompose(terms: seq<ErrorTerm>, assumption: Assumption) {
    && SameUnitAndKind(terms) && OneEpochOnly(terms)
    && (assumption == INDEPENDENT ==>
          forall t :: t in terms ==> t.independence in {INDEPENDENT, EXACT_MULTIPLICATIVE, EXACT_LOGARITHMIC,
            SMALL_ERROR})
  }

  lemma AdmissibleExactly(terms: seq<ErrorTerm>, assumption: Assumption)
    requires terms != []
    ensures Admissible(terms, assumption) ==
            if MayCompose(terms, assumption) then TheLaw(terms[0].kind, assumption) else None
  {
    SameDimensionIs(terms);
    EpochsExactly(terms);
  }

  /** A combined term comes out exactly when the terms may be composed as assumed and, by kind: probabilities that fail
      together for small errors add up to at most one; plain sums given the unit of a probability stay one; correlated
      variances are not negative and every pair has a coefficient. */
  lemma CombinesExactly(root: real -> real, terms: seq<ErrorTerm>, assumption: Assumption)
    requires terms != []
    ensures Outcome(Composed(root, terms, assumption)).Some? <==>
            && MayCompose(terms, assumption)
            && var kind := terms[0].kind;
               match assumption
               case INDEPENDENT =>
                 if kind in {SUCCESS_PROBABILITY, FAILURE_PROBABILITY, INFIDELITY} then
                   terms[0].unit == PROBABILITY ==> 0.0 <= LawValue(root, L1, terms) <= 1.0
                 else if kind in {LOG_SUCCESS, DURATION} then terms[0].unit == PROBABILITY ==> 0.0 <= Sum(terms) <= 1.0
                 else kind in {VARIANCE, STD_DEV}
               case SMALL_ERROR =>
                 && kind in {ADDITIVE_ERROR, INFIDELITY, FAILURE_PROBABILITY} && Sum(terms) <= 1.0
                 && (terms[0].unit == PROBABILITY ==> 0.0 <= Sum(terms))
               case CORRELATED =>
                 && kind in {VARIANCE, STD_DEV}
                 && (forall t :: t in terms && t.kind == VARIANCE ==> t.value >= 0.0)
                 && (forall i, j :: 0 <= i < j < |terms| ==> Correlation(terms[i], terms[j]).Some?)
               case _ => false
  {
    AdmissibleExactly(terms, assumption);
    LawsByKind(terms[0].kind, assumption);
    OutcomeIs(root, terms, assumption);
  }

  /** The earlier term's word on a pair counts before the later one's. */
  lemma EarlierWordCounts(a: ErrorTerm, b: ErrorTerm)
    ensures b.name in a.correlation ==> Correlation(a, b) == Some(a.correlation[b.name])
    ensures b.name !in a.correlation && a.name in b.correlation ==> Correlation(a, b) == Some(b.correlation[a.name])
    ensures b.name !in a.correlation && a.name !in b.correlation ==> Correlation(a, b) == None
  {
  }

  // ----- What comes out -----

  /** The combined term is of the terms' own kind and unit, except that deviations and variances always combine to a
      variance, which is no probability; and it is exact except under the small-error assumption. */
  lemma CombinedIsOf(root: real -> real, terms: seq<ErrorTerm>, assumption: Assumption, c: ErrorTerm)
    requires Outcome(Composed(root, terms, assumption)) == Some(c)
    ensures if terms[0].kind in {VARIANCE, STD_DEV} then
              && c.kind == VARIANCE && c.unit != PROBABILITY
              && (terms[0].unit != PROBABILITY ==> c.unit == terms[0].unit)
                 && (terms[0].unit == PROBABILITY ==> c.unit == DIMENSIONLESS)
            else c.kind == terms[0].kind && c.unit == terms[0].unit
    ensures c.independence == assumption
    ensures Composed(root, terms, assumption).value.exactness == if assumption == SMALL_ERROR then APPROXIMATE
            else EXACT
  {
    OutcomeSome(root, terms, assumption);
    AdmissibleExactly(terms, assumption);
    LawsByKind(terms[0].kind, assumption);
  }

  /** Without a combined term a composition that is not refused is unresolved. */
  lemma UnresolvedWithout(root: real -> real, terms: seq<ErrorTerm>, assumption: Assumption)
    requires Composed(root, terms, assumption).Ok?
    ensures Composed(root, terms, assumption).value.combined == None <==>
            Composed(root, terms, assumption).value.exactness == UNRESOLVED
    ensures Composed(root, terms, assumption).value.dimensions == Groups(terms)
  {
  }

  function Flipped(t: ErrorTerm, kind: Kind): ErrorTerm {
    t.(kind := kind, value := 1.0 - t.value)
  }

  predicate AreFlipped(terms: seq<ErrorTerm>, others: seq<ErrorTerm>) {
    && |others| == |terms| && (forall t :: t in terms ==> t.kind == SUCCESS_PROBABILITY)
    && forall i :: 0 <= i < |terms| ==> others[i] == Flipped(terms[i], FAILURE_PROBABILITY)
  }

  lemma {:induction false} FlippedProduct(terms: seq<ErrorTerm>, others: seq<ErrorTerm>)
    requires AreFlipped(terms, others)
    ensures Product(others) == Product(terms)
    decreases |terms|
  {
    if terms != [] {
      FlippedProduct(terms[..|terms| - 1], others[..|others| - 1]);
    }
  }

  /** Composing successes and composing the failures they leave are complements. */
  lemma SuccessAndFailureComplement(root: real -> real, terms: seq<ErrorTerm>, others: seq<ErrorTerm>)
    requires terms != [] && AreFlipped(terms, others)
    ensures LawValue(root, L1, terms) == 1.0 - LawValue(root, L1, others)
  {
    FlippedProduct(terms, others);
  }

  // ----- Variances may be composed in groups -----

  ghost predicate VarianceParts(root: real -> real, groups: seq<seq<ErrorTerm>>, parts: seq<ErrorTerm>) {
    Parts(root, L4, INDEPENDENT, groups, parts)
  }

  lemma {:induction false} VarianceIsFold(terms: seq<ErrorTerm>)
    requires terms != []
    ensures SumOfVariances(terms) == Fold(Plus, VarianceOf, terms)
    decreases |terms|
  {
    if |terms| > 1 {
      VarianceIsFold(terms[..|terms| - 1]);
    } else {
      assert SumOfVariances(terms[..0]) == 0.0;
    }
  }

  lemma VariancePartStands(root: real -> real, group: seq<ErrorTerm>, part: ErrorTerm)
    requires group != [] && IsPart(root, L4, INDEPENDENT, group, part)
    ensures part.kind == VARIANCE && part.unit == OutUnit(L4, group[0].unit) && part.independence == INDEPENDENT
    ensures NameOf(part) == Fold(Link, NameOf, group) && DomainOf(part) == Fold(Shared, DomainOf, group)
    ensures EpochOf(part) == Fold(JoinEpochs, EpochOf, group)
            && ConfidenceOf(part) == Fold(LeastConfidence, ConfidenceOf, group)
    ensures VarianceOf(part) == Fold(Plus, VarianceOf, group)
  {
    NameIsFold(group);
    DomainIsFold(group);
    EpochIsFold(group);
    ConfidenceIsFold(group);
    VarianceIsFold(group);
  }

  lemma VariancesRegroup(root: real -> real, groups: seq<seq<ErrorTerm>>, parts: seq<ErrorTerm>)
    requires VarianceParts(root, groups, parts)
    ensures var flat := Flatten(groups);
            && flat != [] && EpochsOf(parts) == EpochsOf(flat) && Confidence(parts) == Confidence(flat)
            && JoinNames(parts) == JoinNames(flat)
            && (if SameDomain(parts) then parts[0].domain else MODEL) ==
               (if SameDomain(flat) then flat[0].domain else MODEL)
            && SumOfVariances(parts) == SumOfVariances(flat)
  {
    OperationsAssociate();
    forall i | 0 <= i < |groups|
      ensures groups[i] != []
      ensures NameOf(parts[i]) == Fold(Link, NameOf, groups[i])
              && DomainOf(parts[i]) == Fold(Shared, DomainOf, groups[i])
      ensures EpochOf(parts[i]) == Fold(JoinEpochs, EpochOf, groups[i])
      ensures ConfidenceOf(parts[i]) == Fold(LeastConfidence, ConfidenceOf, groups[i])
      ensures VarianceOf(parts[i]) == Fold(Plus, VarianceOf, groups[i])
    {
      assert IsPart(root, L4, INDEPENDENT, groups[i], parts[i]);
      VariancePartStands(root, groups[i], parts[i]);
    }
    FlattenStarts(groups);
    var flat := Flatten(groups);
    FoldRegroups(Link, NameOf, groups, parts);
    NameIsFold(parts);
    NameIsFold(flat);
    FoldRegroups(Shared, DomainOf, groups, parts);
    DomainIsFold(parts);
    DomainIsFold(flat);
    FoldRegroups(JoinEpochs, EpochOf, groups, parts);
    EpochIsFold(parts);
    EpochIsFold(flat);
    FoldRegroups(LeastConfidence, ConfidenceOf, groups, parts);
    ConfidenceIsFold(parts);
    ConfidenceIsFold(flat);
    FoldRegroups(Plus, VarianceOf, groups, parts);
    VarianceIsFold(parts);
    VarianceIsFold(flat);
  }

  lemma VariancePartAlike(root: real -> real, groups: seq<seq<ErrorTerm>>, parts: seq<ErrorTerm>, i: nat)
    requires VarianceParts(root, groups, parts) && SameDimension(Flatten(groups)) && i < |groups|
    ensures Flatten(groups) != [] && groups[i] != []
    ensures DimensionOf(parts[i]) == Dimension(OutUnit(L4, Flatten(groups)[0].unit), VARIANCE)
            && parts[i].independence == INDEPENDENT
    ensures forall t :: t in groups[i] ==> ClaimsIndependence(t)
  {
    assert IsPart(root, L4, INDEPENDENT, groups[i], parts[i]);
    VariancePartStands(root, groups[i], parts[i]);
    FlattenStarts(groups);
    var flat := Flatten(groups);
    assert groups[i][0] in groups[i];
    InFlatten(groups, groups[i][0]);
    var k :| 0 <= k < |flat| && flat[k] == groups[i][0];
    assert DimensionOf(flat[k]) == DimensionOf(flat[0]);
  }

  lemma VarianceClaims(root: real -> real, groups: seq<seq<ErrorTerm>>, parts: seq<ErrorTerm>)
    requires VarianceParts(root, groups, parts) && SameDimension(Flatten(groups))
    ensures parts != [] && SameDimension(parts) && parts[0].kind == VARIANCE
    ensures forall t :: t in parts || t in Flatten(groups) ==> ClaimsIndependence(t)
  {
    VariancePartAlike(root, groups, parts, 0);
    forall i | 0 <= i < |parts|
      ensures DimensionOf(parts[i]) == DimensionOf(parts[0]) && ClaimsIndependence(parts[i])
    {
      VariancePartAlike(root, groups, parts, i);
    }
    forall t | t in Flatten(groups)
      ensures ClaimsIndependence(t)
    {
      InFlatten(groups, t);
      var i :| 0 <= i < |groups| && t in groups[i];
      VariancePartAlike(root, groups, parts, i);
    }
  }

  lemma VarianceKindOfFlat(root: real -> real, groups: seq<seq<ErrorTerm>>, parts: seq<ErrorTerm>)
    requires VarianceParts(root, groups, parts)
    ensures Flatten(groups) != [] && Flatten(groups)[0].kind in {VARIANCE, STD_DEV}
  {
    FlattenStarts(groups);
    assert IsPart(root, L4, INDEPENDENT, groups[0], parts[0]);
    LawsByKind(groups[0][0].kind, INDEPENDENT);
  }

  lemma VarianceSealed(root: real -> real, s: seq<ErrorTerm>, t: seq<ErrorTerm>)
    requires s != [] && t != [] && OutUnit(L4, s[0].unit) == OutUnit(L4, t[0].unit)
    requires EpochsOf(s) == EpochsOf(t) && Confidence(s) == Confidence(t) && JoinNames(s) == JoinNames(t)
    requires (if SameDomain(s) then s[0].domain else MODEL) == (if SameDomain(t) then t[0].domain else MODEL)
    requires SumOfVariances(s) == SumOfVariances(t)
    ensures Sealed(root, L4, INDEPENDENT, s) == Sealed(root, L4, INDEPENDENT, t)
  {
    assert LawValue(root, L4, s) == LawValue(root, L4, t);
  }

  lemma VarianceAdmissible(root: real -> real, groups: seq<seq<ErrorTerm>>, parts: seq<ErrorTerm>)
    requires VarianceParts(root, groups, parts) && SameDimension(Flatten(groups))
    ensures parts != [] && Flatten(groups) != []
    ensures Admissible(parts, INDEPENDENT) == Admissible(Flatten(groups), INDEPENDENT)
    ensures Admissible(parts, INDEPENDENT).Some? ==> Admissible(parts, INDEPENDENT) == Some(L4)
  {
    var flat := Flatten(groups);
    VariancesRegroup(root, groups, parts);
    VarianceClaims(root, groups, parts);
    VarianceKindOfFlat(root, groups, parts);
    LawsByKind(flat[0].kind, INDEPENDENT);
    LawsByKind(VARIANCE, INDEPENDENT);
  }

  /** Composing groups of independent deviations or variances first and then their results gives the very term that
      composing everything at once gives, or neither gives one. A group's result is a variance; read as a deviation it
      would be squared again. */
  lemma VarianceGroupingDoesNotMatter(root: real -> real, groups: seq<seq<ErrorTerm>>, parts: seq<ErrorTerm>)
    requires VarianceParts(root, groups, parts) && SameUnitAndKind(Flatten(groups))
    ensures Outcome(Composed(root, parts, INDEPENDENT)) == Outcome(Composed(root, Flatten(groups), INDEPENDENT))
  {
    var flat := Flatten(groups);
    SameDimensionIs(flat);
    VariancesRegroup(root, groups, parts);
    VariancePartAlike(root, groups, parts, 0);
    VarianceAdmissible(root, groups, parts);
    VarianceSealed(root, parts, flat);
    OutcomeIs(root, parts, INDEPENDENT);
    OutcomeIs(root, flat, INDEPENDENT);
  }
}
