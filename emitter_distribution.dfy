/**
  * The discrete distribution the scene builds over its emitters: one weight of 1 per emitter,
  * normalised to probabilities when there is at least one emitter.
  *
  * Normalisation is modelled as dividing every weight by their sum.
  */
module EmitterDistribution {

  function Sum(w: seq<real>): real {
    if w == [] then 0.0 else w[0] + Sum(w[1..])
  }

  /** The weights appended by the constructor: `n` times 1. */
  function UniformWeights(n: nat): seq<real> {
    seq(n, _ => 1.0)
  }

  /** Every weight divided by the total weight. */
  function Normalized(w: seq<real>): seq<real>
    requires Sum(w) != 0.0
  {
    seq(|w|, i requires 0 <= i < |w| => w[i] / Sum(w))
  }

  /** The distribution over `n` emitters as the constructor leaves it. */
  function Uniform(n: nat): (d: seq<real>)
    ensures |d| == n
  {
    SumOfUniformWeights(n);
    if n > 0 then Normalized(UniformWeights(n)) else UniformWeights(n)
  }

  /** A sequence of `n` copies of `c` sums to `n` times `c`. */
  lemma {:induction false} SumOfConstant(w: seq<real>, c: real)
    requires forall i :: 0 <= i < |w| ==> w[i] == c
    ensures Sum(w) == (|w| as real) * c
  {
    if w != [] {
      SumOfConstant(w[1..], c);
    }
  }

  lemma SumOfUniformWeights(n: nat)
    ensures Sum(UniformWeights(n)) == n as real
  {
    SumOfConstant(UniformWeights(n), 1.0);
  }

  /** Each of the `n` emitters is selected with probability 1/n. */
  lemma UniformEntry(n: nat, i: nat)
    requires i < n
    ensures Uniform(n)[i] == 1.0 / (n as real)
  {
    SumOfUniformWeights(n);
    assert Uniform(n) == Normalized(UniformWeights(n));
    assert UniformWeights(n)[i] == 1.0;
  }

  /** Over `n` emitters the distribution has one entry per emitter; if there is at least one,
    * each emitter is selected with probability 1/n and the probabilities sum to one. With no
    * emitter the distribution is empty. */
  lemma UniformSelection(n: nat)
    ensures |Uniform(n)| == n
    ensures forall i :: 0 <= i < n ==> Uniform(n)[i] == 1.0 / (n as real)
    ensures n > 0 ==> Sum(Uniform(n)) == 1.0
  {
    forall i | 0 <= i < n
      ensures Uniform(n)[i] == 1.0 / (n as real)
    {
      UniformEntry(n, i);
    }
    if n > 0 {
      var share := 1.0 / (n as real);
      SumOfConstant(Uniform(n), share);
      assert (n as real) * share == 1.0;
    }
  }
}
