/**
 * Bet generation: the weight tables turned into probability vectors, and numpy's
 * `np.random.choice(pool, size, replace=False, p=prob)` followed by `sorted(...)`.
 * Which values numpy draws is random; the model lets it draw any index it has not drawn yet
 * whose probability is positive, and proves what holds whatever it draws.
 */
module Sampling {
  import opened Common
  import opened Sorting

  function Sum(w: seq<real>): real
  {
    if w == [] then 0.0 else w[0] + Sum(w[1..])
  }

  predicate NonNegative(w: seq<real>)
  {
    forall i :: 0 <= i < |w| ==> w[i] >= 0.0
  }

  /** The indices whose entry is positive: `np.count_nonzero(p > 0)` counts them. */
  function PositiveIndices(w: seq<real>): set<int>
  {
    set i | 0 <= i < |w| && w[i] > 0.0
  }

  /** `np.array(w) / total`. */
  function Scale(w: seq<real>, total: real): (r: seq<real>)
    requires total != 0.0
    ensures |r| == |w|
  {
    if w == [] then [] else [w[0] / total] + Scale(w[1..], total)
  }

  /** `np.ones(n) / n`. */
  function Uniform(n: nat): (r: seq<real>)
    ensures |r| == n
  {
    Repeat(if n == 0 then 0.0 else 1.0 / n as real, n)
  }

  function Repeat(c: real, n: nat): (r: seq<real>)
    ensures |r| == n
  {
    if n == 0 then [] else [c] + Repeat(c, n - 1)
  }

  /** Lines 70 and 74: the weights divided by their sum, or uniform when the sum is not positive. */
  function Probabilities(w: seq<real>): (p: seq<real>)
    ensures |p| == |w|
  {
    var total := Sum(w);
    if total > 0.0 then Scale(w, total) else Uniform(|w|)
  }

  lemma {:induction false} ScaleAt(w: seq<real>, total: real, i: int)
    requires total != 0.0 && 0 <= i < |w|
    ensures Scale(w, total)[i] == w[i] / total
  {
    if i > 0 {
      ScaleAt(w[1..], total, i - 1);
    }
  }

  lemma {:induction false} RepeatAt(c: real, n: nat, i: int)
    requires 0 <= i < n
    ensures Repeat(c, n)[i] == c
  {
    if i > 0 {
      RepeatAt(c, n - 1, i - 1);
    }
  }

  lemma {:induction false} SumScale(w: seq<real>, total: real)
    requires total != 0.0
    ensures Sum(Scale(w, total)) == Sum(w) / total
  {
    if w != [] {
      SumScale(w[1..], total);
      assert Scale(w, total)[1..] == Scale(w[1..], total);
    }
  }

  lemma {:induction false} SumRepeat(c: real, n: nat)
    ensures Sum(Repeat(c, n)) == n as real * c
  {
    if n > 0 {
      SumRepeat(c, n - 1);
      assert Repeat(c, n)[1..] == Repeat(c, n - 1);
    }
  }

  /** A sum of non-negative entries is non-negative, and positive exactly when some entry is. */
  lemma {:induction false} SumSign(w: seq<real>)
    requires NonNegative(w)
    ensures Sum(w) >= 0.0
    ensures Sum(w) > 0.0 <==> PositiveIndices(w) != {}
  {
    if w != [] {
      SumSign(w[1..]);
      if w[0] > 0.0 {
        assert 0 in PositiveIndices(w);
      } else if PositiveIndices(w[1..]) != {} {
        var i :| i in PositiveIndices(w[1..]);
        assert i + 1 in PositiveIndices(w);
      } else {
        forall i | 0 <= i < |w| ensures w[i] <= 0.0 {
          if i > 0 {
            assert w[i] == w[1..][i - 1];
            assert i - 1 !in PositiveIndices(w[1..]);
          }
        }
        assert PositiveIndices(w) == {};
      }
    }
  }

  lemma ScaledDistribution(w: seq<real>, total: real)
    requires total > 0.0 && Sum(w) == total
    ensures Sum(Scale(w, total)) == 1.0
    ensures forall i :: 0 <= i < |w| ==> Scale(w, total)[i] == w[i] / total
  {
    SumScale(w, total);
    assert Sum(w) / total == 1.0 by {
      assert Sum(w) == 1.0 * total;
    }
    forall i | 0 <= i < |w| ensures Scale(w, total)[i] == w[i] / total {
      ScaleAt(w, total, i);
    }
  }

  lemma UniformDistribution(n: nat)
    requires n > 0
    ensures Sum(Uniform(n)) == 1.0
    ensures forall i :: 0 <= i < n ==> Uniform(n)[i] == 1.0 / n as real
  {
    var c := 1.0 / n as real;
    SumRepeat(c, n);
    assert n as real * c == 1.0;
    forall i | 0 <= i < n ensures Uniform(n)[i] == c {
      RepeatAt(c, n, i);
    }
  }

  lemma QuotientSign(a: real, b: real)
    requires a >= 0.0 && b > 0.0
    ensures a / b >= 0.0 && (a / b > 0.0 <==> a > 0.0)
  {
  }

  /**
   * The probabilities are a distribution: non-negative and summing to exactly 1. With a positive
   * total each value gets its share of it; otherwise every value gets 1/n.
   */
  lemma ProbabilitiesAreDistribution(w: seq<real>)
    requires |w| > 0 && NonNegative(w)
    ensures NonNegative(Probabilities(w))
    ensures Sum(Probabilities(w)) == 1.0
    ensures Sum(w) > 0.0 ==> forall i :: 0 <= i < |w| ==> Probabilities(w)[i] == w[i] / Sum(w)
    ensures Sum(w) <= 0.0 ==> forall i :: 0 <= i < |w| ==> Probabilities(w)[i] == 1.0 / |w| as real
  {
    var total := Sum(w);
    if total > 0.0 {
      ScaledDistribution(w, total);
      forall i | 0 <= i < |w| ensures Probabilities(w)[i] >= 0.0 {
        QuotientSign(w[i], total);
      }
    } else {
      UniformDistribution(|w|);
      QuotientSign(1.0, |w| as real);
    }
  }

  /**
   * The values with positive probability: those with positive weight, or every value when no
   * weight is positive.
   */
  lemma PositiveProbabilities(w: seq<real>)
    requires |w| > 0 && NonNegative(w)
    ensures forall i :: 0 <= i < |w| ==>
              (Probabilities(w)[i] > 0.0 <==> PositiveIndices(w) == {} || w[i] > 0.0)
  {
    ProbabilitiesAreDistribution(w);
    SumSign(w);
    var n := |w| as real;
    assert 1.0 / n > 0.0;
  }

  /**
   * The positive probabilities sit where the weights are positive, or everywhere when no
   * weight is.
   */
  lemma PositiveWhereWeighted(w: seq<real>)
    requires |w| > 0 && NonNegative(w)
    ensures PositiveIndices(w) != {} ==> PositiveIndices(Probabilities(w)) == PositiveIndices(w)
    ensures PositiveIndices(w) == {} ==> forall j :: 0 <= j < |w| <==> j in PositiveIndices(Probabilities(w))
  {
    PositiveProbabilities(w);
  }

  /**
   * `np.random.choice(pool, size, replace=False, p=p)`: fails unless at least `size` entries of
   * `p` are positive; otherwise returns `size` values of `pool` at distinct indices of positive
   * probability, in the order drawn. `picked` records those indices.
   */
  method Choice(pool: seq<int>, p: seq<real>, size: nat) returns (r: Result<seq<int>>, ghost picked: seq<int>)
    requires |p| == |pool|
    requires NonNegative(p) && Sum(p) == 1.0
    ensures r.Err? <==> |PositiveIndices(p)| < size
    ensures r.Err? ==> r.error == if size > |pool| then SampleTooLarge else FewerNonZeroEntries
    ensures r.Ok? ==> && |r.value| == size && |picked| == size && Distinct(picked)
                      && forall j :: 0 <= j < size ==>
                           picked[j] in PositiveIndices(p) && r.value[j] == pool[picked[j]]
  {
    var positive := PositiveIndices(p);
    if size > |pool| {
      PositiveIndicesBound(p);
      return Err(SampleTooLarge), [];
    }
    if |positive| < size {
      return Err(FewerNonZeroEntries), [];
    }
    var values := [];
    picked := [];
    var chosen: set<int> := {};
    while |values| < size
      invariant |values| == |picked| == |chosen| <= size
      invariant chosen <= positive
      invariant Distinct(picked)
      invariant forall j :: 0 <= j < |picked| ==> picked[j] in chosen && values[j] == pool[picked[j]]
    {
      assert positive - chosen != {};
      var i :| i in positive - chosen;
      values := values + [pool[i]];
      picked := picked + [i];
      chosen := chosen + {i};
    }
    return Ok(values), picked;
  }

  lemma SubsetCardinality(a: set<int>, b: set<int>)
    requires a <= b
    ensures |a| <= |b|
  {
    assert b == a + (b - a);
  }

  lemma {:induction false} PositiveIndicesBound(w: seq<real>)
    ensures |PositiveIndices(w)| <= |w|
  {
    if w != [] {
      var init := w[..|w| - 1];
      PositiveIndicesBound(init);
      assert PositiveIndices(w) <= PositiveIndices(init) + {|w| - 1};
      SubsetCardinality(PositiveIndices(w), PositiveIndices(init) + {|w| - 1});
    }
  }

  /** `sorted(...)`: ascending order. */
  function SortAscending(s: seq<int>): seq<int>
  {
    SortBy(s, (a: int, b: int) => a <= b)
  }

  /** Sorting distinct values gives a strictly ascending permutation of them. */
  lemma SortAscendingStrict(s: seq<int>)
    requires Distinct(s)
    ensures multiset(SortAscending(s)) == multiset(s)
    ensures StrictlyAscending(SortAscending(s))
  {
    var le := (a: int, b: int) => a <= b;
    var r := SortAscending(s);
    SortBySorted(s, le);
    PermutationDistinct(s, r);
  }

  /** `list(range(1, n + 1))`: the pool of values 1..n. */
  function Pool(n: nat): (pool: seq<int>)
    ensures |pool| == n && forall i :: 0 <= i < n ==> pool[i] == i + 1
  {
    seq(n, i => i + 1)
  }

  /** A sorted pick of `size` distinct values of 1..|p|, each with positive probability in `p`. */
  predicate IsPick(xs: seq<int>, p: seq<real>, size: nat)
  {
    && |xs| == size
    && StrictlyAscending(xs)
    && forall j :: 0 <= j < |xs| ==> 1 <= xs[j] <= |p| && p[xs[j] - 1] > 0.0
  }

  /**
   * Lines 77-78: `sorted(np.random.choice(pool, size, replace=False, p=p))` with the pool 1..|p|.
   * It fails exactly when fewer than `size` values have positive probability.
   */
  method SortedChoice(p: seq<real>, size: nat) returns (r: Result<seq<int>>)
    requires NonNegative(p) && Sum(p) == 1.0
    ensures r.Err? <==> |PositiveIndices(p)| < size
    ensures r.Err? ==> r.error == if size > |p| then SampleTooLarge else FewerNonZeroEntries
    ensures r.Ok? ==> IsPick(r.value, p, size)
  {
    var drawn, picked := Choice(Pool(|p|), p, size);
    if drawn.Err? {
      return Err(drawn.error);
    }
    var values := drawn.value;
    assert Distinct(values) by {
      forall i, j | 0 <= i < j < |values| ensures values[i] != values[j] {
        assert values[i] == picked[i] + 1 && values[j] == picked[j] + 1;
      }
    }
    var sorted := SortAscending(values);
    SortAscendingStrict(values);
    forall j | 0 <= j < |sorted| ensures 1 <= sorted[j] <= |p| && p[sorted[j] - 1] > 0.0 {
      var m := PermutationIndex(values, sorted, j);
      assert picked[m] in PositiveIndices(p);
    }
    return Ok(sorted);
  }

  /** A set holding every element of a sequence without repeats has at least as many elements. */
  lemma {:induction false} DistinctInSet(s: seq<int>, members: set<int>)
    requires Distinct(s)
    requires forall i :: 0 <= i < |s| ==> s[i] in members
    ensures |members| >= |s|
  {
    if s != [] {
      var last := s[|s| - 1];
      var init := s[..|s| - 1];
      assert forall i, j :: 0 <= i < j < |init| ==> init[i] != init[j] by {
        assert forall i :: 0 <= i < |init| ==> init[i] == s[i];
      }
      forall i | 0 <= i < |init| ensures init[i] in members - {last} {
        assert init[i] == s[i] && s[i] != s[|s| - 1];
      }
      DistinctInSet(init, members - {last});
    }
  }
}
