/** An opponent-utility estimate paired with the confidence placed in it. */
module EstimatedUtilities {
  import opened Wrappers

  /** The utility reported when there is no bid to estimate. */
  const NO_UTILITY: real := 0.0
  /** The confidence reported when there is no bid to estimate. */
  const NO_CONFIDENCE: real := 0.0

  datatype EstimatedUtility = EstimatedUtility(utility: real, confidenceLevel: real)
  {
    /** Value equality with another object; `None` stands for null or an
        object of another class. */
    predicate Equals(o: Option<EstimatedUtility>): (r: bool)
      ensures r <==> o == Some(this)
    {
      match o
      case None => false
      case Some(other) => utility == other.utility && confidenceLevel == other.confidenceLevel
    }

    /** The estimate carries no information: it equals NO_MEANINGFUL_ESTIMATE. */
    predicate IsNotMeaningful(): (r: bool)
      ensures r <==> utility == NO_UTILITY && confidenceLevel == NO_CONFIDENCE
    {
      Equals(Some(NO_MEANINGFUL_ESTIMATE))
    }

    predicate IsMeaningful(): (r: bool)
      ensures r <==> utility != 0.0 || confidenceLevel != 0.0
    {
      !IsNotMeaningful()
    }
  }

  /** The estimate returned for a missing bid or offer. */
  const NO_MEANINGFUL_ESTIMATE: EstimatedUtility := EstimatedUtility(NO_UTILITY, NO_CONFIDENCE)

  /** Equality of estimates is an equivalence: reflexive, symmetric and transitive. */
  lemma EqualsIsEquivalence(a: EstimatedUtility, b: EstimatedUtility, c: EstimatedUtility)
    ensures a.Equals(Some(a))
    ensures a.Equals(Some(b)) ==> b.Equals(Some(a))
    ensures a.Equals(Some(b)) && b.Equals(Some(c)) ==> a.Equals(Some(c))
    ensures !a.Equals(None)
  {
  }
}
