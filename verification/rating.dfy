/** A competitor's (or one scoring component's) skill belief: a mean `mu`, an
    uncertainty `sigma` and an optional display name (src/.../model/rating.py). */
module Ratings {
  import opened Wrappers

  /** Constructor defaults of `Rating.__init__`. */
  const DEFAULT_MU: real := 25.0
  const DEFAULT_SIGMA: real := 25.0 / 3.0

  datatype Rating = Rating(mu: real, sigma: real, name: Option<string>) {

    /** Conservative skill estimate: the mean less `z` standard deviations. */
    function Ordinal(z: real := 3.0): real {
      mu - z * sigma
    }

    /** The `mu` property setter. */
    function WithMu(value: real): Rating {
      this.(mu := value)
    }

    /** The `sigma` property setter. */
    function WithSigma(value: real): Rating {
      this.(sigma := value)
    }

    /** `__eq__`: only `mu` and `sigma` take part; the name is ignored. */
    predicate Equals(other: Operand) {
      other.RatingOperand? && other.rating.mu == mu && other.rating.sigma == sigma
    }
  }

  /** The right-hand side of `==`: Python lets a Rating be compared with anything. */
  datatype Operand = RatingOperand(rating: Rating) | OtherOperand

  /** `Rating(mu=..., sigma=..., name=...)` with the constructor's default arguments. */
  function NewRating(mu: real := DEFAULT_MU, sigma: real := DEFAULT_SIGMA, name: Option<string> := None): Rating {
    Rating(mu, sigma, name)
  }

  /** A default-constructed Rating is (25, 25/3) without a name; its ordinal is 0. */
  lemma DefaultRating()
    ensures NewRating() == Rating(25.0, 25.0 / 3.0, None)
    ensures NewRating().Ordinal() == 0.0
  {
  }

  /** `ordinal()` uses z = 3, and at z = 0 the ordinal is the mean. */
  lemma OrdinalDefaults(r: Rating)
    ensures r.Ordinal() == r.mu - 3.0 * r.sigma
    ensures r.Ordinal(0.0) == r.mu
  {
  }

  /** For a fixed mean and z > 0 the ordinal strictly decreases as sigma grows. */
  lemma OrdinalDecreasesInSigma(mu: real, s1: real, s2: real, z: real)
    requires z > 0.0 && s1 < s2
    ensures Rating(mu, s2, None).Ordinal(z) < Rating(mu, s1, None).Ordinal(z)
  {
    var a, b := z * s1, z * s2;
    assert b - a == z * (s2 - s1);
  }

  /** Two Ratings are equal exactly when they agree on the ordinal at every z:
      equality observes `mu` and `sigma` and nothing else. */
  lemma EqualsIffSameOrdinals(a: Rating, b: Rating)
    ensures a.Equals(RatingOperand(b)) <==> forall z :: a.Ordinal(z) == b.Ordinal(z)
  {
    if forall z :: a.Ordinal(z) == b.Ordinal(z) {
      assert a.Ordinal(0.0) == b.Ordinal(0.0);
      assert a.Ordinal(1.0) == b.Ordinal(1.0);
    }
  }

  /** Names do not take part in equality, and a non-Rating is never equal. */
  lemma EqualsIgnoresName(a: Rating, n1: Option<string>, n2: Option<string>)
    ensures a.(name := n1).Equals(RatingOperand(a.(name := n2)))
    ensures !a.Equals(OtherOperand)
  {
  }

  /** Equality restricted to Ratings is an equivalence relation. */
  lemma EqualsIsEquivalence(a: Rating, b: Rating, c: Rating)
    ensures a.Equals(RatingOperand(a))
    ensures a.Equals(RatingOperand(b)) ==> b.Equals(RatingOperand(a))
    ensures a.Equals(RatingOperand(b)) && b.Equals(RatingOperand(c)) ==> a.Equals(RatingOperand(c))
  {
  }

  /** The setters behave as independent fields: each sets its own field, leaves the
      other two alone, and writing back what was read changes nothing. */
  lemma SettersAreIndependent(r: Rating, m: real, s: real)
    ensures r.WithMu(m).mu == m && r.WithMu(m).sigma == r.sigma && r.WithMu(m).name == r.name
    ensures r.WithSigma(s).sigma == s && r.WithSigma(s).mu == r.mu && r.WithSigma(s).name == r.name
    ensures r.WithMu(m).WithSigma(s) == r.WithSigma(s).WithMu(m)
    ensures r.WithMu(r.mu) == r && r.WithSigma(r.sigma) == r
  {
  }
}
