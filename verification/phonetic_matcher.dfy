/** `PhoneticEncoderMatcher`: two strings match when a phonetic encoder
    (Soundex, Metaphone, ...) gives them the same code. The encoders
    themselves are not modelled: an encoder is any total function from
    strings to codes, and the lookup `PhoneticEncoderUtil.getEncoder` is a
    total function from algorithm names to encoders. */
module PhoneticMatcher {

  /** A phonetic encoder: `IPhoneticEncoder.encode`. */
  type Encoder = string -> string

  /** A `PhoneticEncoderEnum` constant, known here by its `name()`. */
  datatype PhoneticAlgorithm = PhoneticAlgorithm(name: string)

  /** A matcher holds the one encoder chosen when it was built. */
  datatype Matcher = Matcher(encoder: Encoder)

  /** The constructor: look the encoder up by the algorithm's name, once. */
  function NewMatcher(algorithm: PhoneticAlgorithm, getEncoder: string -> Encoder): (m: Matcher)
    ensures forall s :: m.encoder(s) == getEncoder(algorithm.name)(s)
  {
    Matcher(getEncoder(algorithm.name))
  }

  /** `matches`: equality of the two encodings, so a string always
      matches itself whatever the encoder. */
  function Matches(m: Matcher, left: string, right: string): (b: bool)
    ensures left == right ==> b
  {
    m.encoder(left) == m.encoder(right)
  }

  /** The verdict depends on nothing but the two codes: matchers whose
      encoders agree on both strings agree on whether they match. */
  lemma MatchesDependsOnlyOnCodes(m1: Matcher, m2: Matcher, left: string, right: string)
    requires m1.encoder(left) == m2.encoder(left) && m1.encoder(right) == m2.encoder(right)
    ensures Matches(m1, left, right) <==> Matches(m2, left, right)
  {
  }

  lemma MatchesReflexive(m: Matcher, a: string)
    ensures Matches(m, a, a)
  {
  }

  lemma MatchesSymmetric(m: Matcher, a: string, b: string)
    ensures Matches(m, a, b) <==> Matches(m, b, a)
  {
  }

  lemma MatchesTransitive(m: Matcher, a: string, b: string, c: string)
    requires Matches(m, a, b) && Matches(m, b, c)
    ensures Matches(m, a, c)
  {
  }

  /** A relation on strings is an equivalence: reflexive, symmetric and
      transitive. */
  ghost predicate IsEquivalence(related: (string, string) -> bool) {
    && (forall a :: related(a, a))
    && (forall a, b :: related(a, b) ==> related(b, a))
    && (forall a, b, c :: related(a, b) && related(b, c) ==> related(a, c))
  }

  /** Whatever the encoder, matching is an equivalence relation. */
  lemma MatchesIsEquivalence(m: Matcher)
    ensures IsEquivalence((a: string, b: string) => Matches(m, a, b))
  {
  }

  /** Two matchers built for the same algorithm agree on every pair: the
      encoder is fixed at construction. */
  lemma SameAlgorithmSameVerdicts(algorithm: PhoneticAlgorithm, getEncoder: string -> Encoder,
                                  a: string, b: string)
    ensures Matches(NewMatcher(algorithm, getEncoder), a, b)
        <==> getEncoder(algorithm.name)(a) == getEncoder(algorithm.name)(b)
  {
  }

  /** Over a finite collection, match classes never overlap: a string
      matching two others makes those two match each other. */
  lemma {:induction false} MatchClassesDisjoint(m: Matcher, xs: seq<string>, pivot: string)
    requires forall i :: 0 <= i < |xs| ==> Matches(m, pivot, xs[i])
    ensures forall i, j :: 0 <= i < |xs| && 0 <= j < |xs| ==> Matches(m, xs[i], xs[j])
  {
    forall i, j | 0 <= i < |xs| && 0 <= j < |xs|
      ensures Matches(m, xs[i], xs[j])
    {
      MatchesSymmetric(m, pivot, xs[i]);
      MatchesTransitive(m, xs[i], pivot, xs[j]);
    }
  }
}
