/**
 The authority of the genesis account: every active delegate gets a weight of 16 bits in
 proportion to its votes, and a threshold that a majority of the weights reaches.
 */
module DelegateWeights {
  import opened Assets
  import opened Sums

  const WEIGHT_LIMIT := 0x1_0000

  function Pow2(n: nat): (r: nat)
    ensures r > 0
  {
    if n == 0 then 1 else 2 * Pow2(n - 1)
  }

  /** The number of bits of a number without its leading zeros. */
  function BitLength(n: nat): nat {
    if n == 0 then 0 else 1 + BitLength(n / 2)
  }

  function BitsToDrop(total: nat): nat {
    if BitLength(total) <= 16 then 0 else BitLength(total) - 16
  }

  /** The votes without the low bits, and at least one. */
  function WeightOf(votes: nat, total: nat): nat {
    var shifted := votes / Pow2(BitsToDrop(total));
    if shifted < 1 then 1 else shifted
  }

  lemma {:induction false} BitsBound(n: nat)
    requires n > 0
    ensures Pow2(BitLength(n) - 1) <= n < Pow2(BitLength(n))
  {
    if n > 1 {
      BitsBound(n / 2);
      assert BitLength(n) == 1 + BitLength(n / 2) && BitLength(n / 2) >= 1;
    } else {
      assert BitLength(1) == 1 + BitLength(0);
    }
  }

  lemma {:induction false} Pow2Splits(a: nat, b: nat)
    ensures Pow2(a + b) == Pow2(a) * Pow2(b)
  {
    if a == 0 {
    } else {
      Pow2Splits(a - 1, b);
    }
  }

  lemma Pow16()
    ensures Pow2(16) == WEIGHT_LIMIT
  {
    assert Pow2(4) == 16;
    Pow2Splits(4, 4);
    Pow2Splits(8, 8);
  }

  /** Every weight fits 16 bits, and more votes never weigh less; no more bits are dropped than that takes. */
  lemma WeightFits(votes: nat, total: nat)
    requires votes <= total
    ensures 1 <= WeightOf(votes, total) < WEIGHT_LIMIT
    ensures forall fewer: nat :: fewer <= votes ==> WeightOf(fewer, total) <= WeightOf(votes, total)
    ensures votes == total >= 0x8000 ==> WeightOf(votes, total) >= 0x8000
  {
    var (length, drop) := (BitLength(total), BitsToDrop(total));
    if total > 0 {
      BitsBound(total);
      Pow16();
      if drop > 0 {
        Pow2Splits(16, drop);
      } else {
        PowGrows(length, 16);
      }
      assert votes < WEIGHT_LIMIT * Pow2(drop);
    }
    QuotientAtMost(WEIGHT_LIMIT, votes, Pow2(drop));
    forall fewer: nat | fewer <= votes
      ensures WeightOf(fewer, total) <= WeightOf(votes, total)
    {
      FloorIsMonotone(fewer, votes, Pow2(drop));
    }
    if votes == total >= 0x8000 { TopWeight(total); }
  }

  /**
   As many low bits are dropped as it takes for the total to fit 16 bits, and no
   more; a weight is what is left, or one.
   */
  lemma WeightIsExact(votes: nat, total: nat) returns (unit: nat)
    ensures unit > 0 && total < WEIGHT_LIMIT * unit && (unit == 1 || 0x8000 * unit <= total)
    ensures var w := WeightOf(votes, total);
            if votes < unit then w == 1 else w * unit <= votes < (w + 1) * unit
  {
    hide Pow2, BitLength;
    var drop := BitsToDrop(total);
    unit := Pow2(drop);
    UnitIsLeast(total);
    FloorBounds(votes, unit);
    if votes >= unit {
      QuotientAtMost(1, votes, unit);
    } else if votes / unit >= 1 {
      ProductGrows(1, votes / unit, unit);
    }
  }

  lemma UnitIsLeast(total: nat)
    ensures var unit := Pow2(BitsToDrop(total));
            total < WEIGHT_LIMIT * unit && (unit == 1 || 0x8000 * unit <= total)
  {
    var (length, drop) := (BitLength(total), BitsToDrop(total));
    Pow16();
    Pow15();
    if total > 0 {
      BitsBound(total);
      if drop > 0 {
        Pow2Splits(16, drop);
        Pow2Splits(15, drop);
      } else {
        PowGrows(length, 16);
      }
    }
  }

  lemma {:induction false} PowGrows(a: nat, b: nat)
    requires a <= b
    ensures Pow2(a) <= Pow2(b)
  {
    if a == b {
    } else {
      PowGrows(a, b - 1);
    }
  }

  lemma TopWeight(total: nat)
    requires total >= 0x8000
    ensures WeightOf(total, total) >= 0x8000
  {
    hide Pow2, BitLength;
    BitsBound(total);
    Pow15();
    var drop := BitsToDrop(total);
    if drop > 0 {
      Pow2Splits(15, drop);
      QuotientAtMost(0x8000, total, Pow2(drop));
    } else {
      PowZero();
    }
  }

  lemma Pow15()
    ensures Pow2(15) == 0x8000
  {
    Pow16();
  }

  lemma PowZero()
    ensures Pow2(0) == 1
  {
  }

  // ----- the authority -----

  type Delegate = (nat, nat) // account and votes

  function TotalVotes(delegates: seq<Delegate>, n: nat): nat
    requires n <= |delegates|
  {
    if n == 0 then 0 else TotalVotes(delegates, n - 1) + delegates[n - 1].1
  }

  /** The votes by account; of an account listed twice the first ones. */
  function VotesOf(delegates: seq<Delegate>, n: nat): map<nat, nat>
    requires n <= |delegates|
  {
    if n == 0 then map[]
    else
      var (votes, d) := (VotesOf(delegates, n - 1), delegates[n - 1]);
      if d.0 in votes then votes else votes[d.0 := d.1]
  }

  lemma {:induction false} VotesAreListed(delegates: seq<Delegate>, n: nat)
    requires n <= |delegates|
    ensures forall a <- VotesOf(delegates, n) :: VotesOf(delegates, n)[a] <= TotalVotes(delegates, n)
    ensures n > 0 ==> delegates[0].0 in VotesOf(delegates, n)
  {
    if n == 0 {
    } else {
      VotesAreListed(delegates, n - 1);
    }
  }

  /** The accounts listed, each with the votes it is first listed with. */
  lemma {:induction false} FirstListingCounts(delegates: seq<Delegate>, n: nat, a: nat)
    requires n <= |delegates|
    ensures a in VotesOf(delegates, n) <==> exists i :: 0 <= i < n && delegates[i].0 == a
    ensures a in VotesOf(delegates, n) ==>
              exists i :: 0 <= i < n && delegates[i] == (a, VotesOf(delegates, n)[a]) && forall j :: 0 <= j < i ==> delegates[j].0 != a
  {
    if n == 0 {
    } else {
      FirstListingCounts(delegates, n - 1, a);
      if a !in VotesOf(delegates, n - 1) && delegates[n - 1].0 == a {
        assert delegates[n - 1] == (a, VotesOf(delegates, n)[a]);
      }
    }
  }

  function WeightsOf(delegates: seq<Delegate>): map<nat, nat> {
    var votes := VotesOf(delegates, |delegates|);
    map a <- votes :: WeightOf(votes[a], TotalVotes(delegates, |delegates|))
  }

  function WeightFn(): (nat, nat) -> int {
    (_, w: nat) => w
  }

  ghost function Threshold(weights: map<nat, nat>): int {
    Sum<nat, nat>(weights, WeightFn()) / 2 + 1
  }

  function Restrict(weights: map<nat, nat>, s: set<nat>): map<nat, nat> {
    map a <- weights | a in s :: weights[a]
  }

  /** What a set of delegates brings together. */
  ghost function WeightOfSet(weights: map<nat, nat>, s: set<nat>): int {
    Sum<nat, nat>(Restrict(weights, s), WeightFn())
  }

  lemma {:induction false} WeightsOfParts(weights: map<nat, nat>, a: set<nat>, b: set<nat>)
    requires a !! b
    ensures WeightOfSet(weights, a) + WeightOfSet(weights, b) == WeightOfSet(weights, a + b)
    decreases |weights|
  {
    if weights == map[] {
      assert Restrict(weights, a) == Restrict(weights, b) == Restrict(weights, a + b) == map[];
    } else {
      var k :| k in weights;
      var rest := weights - {k};
      WeightsOfParts(rest, a, b);
      WeightWithout(weights, a, k);
      WeightWithout(weights, b, k);
      WeightWithout(weights, a + b, k);
    }
  }

  lemma WeightWithout(weights: map<nat, nat>, s: set<nat>, k: nat)
    requires k in weights
    ensures WeightOfSet(weights, s) == WeightOfSet(weights - {k}, s) + if k in s then weights[k] else 0
  {
    if k in s {
      SumWithout<nat, nat>(Restrict(weights, s), WeightFn(), k);
      assert Restrict(weights, s) - {k} == Restrict(weights - {k}, s);
    } else {
      assert Restrict(weights, s) == Restrict(weights - {k}, s);
    }
  }

  lemma {:induction false} WeightOfAll(weights: map<nat, nat>, s: set<nat>)
    ensures WeightOfSet(weights, s) <= Sum<nat, nat>(weights, WeightFn())
  {
    WeightsOfParts(weights, s, weights.Keys - s);
    assert Restrict(weights, s + (weights.Keys - s)) == weights;
    SumAtLeast<nat, nat>(Restrict(weights, weights.Keys - s), WeightFn());
  }

  /** All delegates together reach the threshold, and of two sets without a common member only one can. */
  lemma ThresholdIsMajority(weights: map<nat, nat>, a: set<nat>, b: set<nat>)
    requires weights != map[] && (forall k <- weights :: weights[k] >= 1) && a !! b
    ensures Threshold(weights) <= WeightOfSet(weights, weights.Keys)
    ensures 2 * (Threshold(weights) - 1) <= WeightOfSet(weights, weights.Keys) < 2 * Threshold(weights)
    ensures !(WeightOfSet(weights, a) >= Threshold(weights) && WeightOfSet(weights, b) >= Threshold(weights))
  {
    WeightsOfParts(weights, a, b);
    WeightOfAll(weights, a + b);
    assert Restrict(weights, weights.Keys) == weights;
    var k :| k in weights;
    SumAtLeast<nat, nat>(weights, WeightFn());
    assert WeightFn()(k, weights[k]) <= Sum<nat, nat>(weights, WeightFn());
  }

  /** The weights that delegates get are such, and fit 16 bits. */
  lemma DelegatesGetWeights(delegates: seq<Delegate>)
    requires delegates != []
    ensures WeightsOf(delegates) != map[]
    ensures forall k <- WeightsOf(delegates) :: 1 <= WeightsOf(delegates)[k] < WEIGHT_LIMIT
  {
    VotesAreListed(delegates, |delegates|);
    var (votes, total) := (VotesOf(delegates, |delegates|), TotalVotes(delegates, |delegates|));
    assert delegates[0].0 in WeightsOf(delegates);
    forall k <- votes
      ensures 1 <= WeightOf(votes[k], total) < WEIGHT_LIMIT
    {
      WeightFits(votes[k], total);
    }
  }

  // ----- the update -----

  method TallyVotes(delegates: seq<Delegate>) returns (votes: map<nat, nat>, total: nat)
    ensures votes == VotesOf(delegates, |delegates|) && total == TotalVotes(delegates, |delegates|)
  {
    votes, total := map[], 0;
    for i := 0 to |delegates|
      invariant votes == VotesOf(delegates, i) && total == TotalVotes(delegates, i)
    {
      var (account, tally) := delegates[i];
      if account !in votes { votes := votes[account := tally]; }
      total := total + tally;
    }
  }

  /** One weight for each account, in any order, and their sum. */
  method Weigh(votes: map<nat, nat>, total: nat) returns (weights: map<nat, nat>, sum: nat)
    ensures weights == map a <- votes :: WeightOf(votes[a], total)
    ensures sum == Sum<nat, nat>(weights, WeightFn())
  {
    hide WeightOf, WeightFn;
    weights, sum := map[], 0;
    var rest := votes.Keys;
    while rest != {}
      invariant rest <= votes.Keys && weights.Keys == votes.Keys - rest
      invariant forall a <- weights :: weights[a] == WeightOf(votes[a], total)
      invariant sum == Sum<nat, nat>(weights, WeightFn())
      decreases |rest|
    {
      var a :| a in rest;
      rest := rest - {a};
      var weight := WeightOf(votes[a], total);
      AddWeight(weights, a, weight);
      weights := weights[a := weight];
      sum := sum + weight;
    }
  }

  lemma AddWeight(weights: map<nat, nat>, a: nat, weight: nat)
    requires a !in weights
    ensures Sum<nat, nat>(weights[a := weight], WeightFn()) == Sum<nat, nat>(weights, WeightFn()) + weight
  {
    SumPut<nat, nat>(weights, WeightFn(), a, weight);
  }

  /**
   The weights and the threshold of the genesis account. Without any votes the number of leading zeros is
   undefined in C++, but zero shifted by whatever it is gives every delegate the least weight all the same.
   */
  method UpdateAuthority(delegates: seq<Delegate>) returns (weights: map<nat, nat>, threshold: nat)
    requires delegates != []
    ensures weights == WeightsOf(delegates) && threshold == Threshold(weights)
    ensures forall k <- weights :: 1 <= weights[k] < WEIGHT_LIMIT
  {
    hide VotesOf, TotalVotes, WeightOf, Sum;
    var votes, total := TallyVotes(delegates);
    weights, threshold := Weigh(votes, total);
    threshold := threshold / 2 + 1;
    DelegatesGetWeights(delegates);
  }
}
