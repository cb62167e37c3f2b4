/** Bulk price tiers: the validator and the lookup. Quantities and prices share one decimal scale. */
module BulkPricing {
  import opened Prelude
  import opened Sorting

  datatype TierFields = TierFields(minQty: int, maxQty: Option<int>, price: int)

  predicate TierValid(t: TierFields) {
    t.minQty >= 0 && (t.maxQty.Some? ==> t.maxQty.value > t.minQty) && t.price > 0
  }

  /** A tier that its own constructor has checked. */
  type Tier = t: TierFields | TierValid(t) witness TierFields(0, None, 1)

  datatype TierError = UnlimitedNotLast | Overlap(index: nat)

  predicate ByMin(a: Tier, b: Tier) {
    a.minQty <= b.minQty
  }

  function SortTiers(tiers: seq<Tier>): (r: seq<Tier>)
    ensures SortedBy(r, ByMin) && multiset(r) == multiset(tiers) && |r| == |tiers|
  {
    Sort(tiers, ByMin)
  }

  // ---------------------------------------------------------------------------------------------
  // Validation
  // ---------------------------------------------------------------------------------------------

  /** `a` ends where `b` begins, or before. */
  predicate EndsBefore(a: Tier, b: Tier) {
    a.maxQty.Some? && a.maxQty.value <= b.minQty
  }

  /** The two ranges share at most a boundary. */
  ghost predicate Disjoint(a: Tier, b: Tier) {
    EndsBefore(a, b) || EndsBefore(b, a)
  }

  /** In sorted order each tier ends before the next begins. */
  ghost predicate Consecutive(s: seq<Tier>) {
    forall i :: 0 < i < |s| ==> EndsBefore(s[i - 1], s[i])
  }

  lemma {:induction false} ConsecutiveApart(s: seq<Tier>, i: nat, j: nat)
    requires Consecutive(s) && i < j < |s|
    ensures EndsBefore(s[i], s[j])
    decreases j - i
  {
    if i + 1 < j {
      ConsecutiveApart(s, i, j - 1);
      assert EndsBefore(s[j - 1], s[j]);
    }
  }

  /** Checking neighbours in sorted order is checking all pairs of the list as given. */
  lemma NeighboursDecide(tiers: seq<Tier>)
    ensures Consecutive(SortTiers(tiers)) <==> PairwiseApart(tiers, Disjoint)
  {
    var s := SortTiers(tiers);
    if Consecutive(s) {
      forall i, j | 0 <= i < j < |s|
        ensures Disjoint(s[i], s[j])
      {
        ConsecutiveApart(s, i, j);
      }
      PermutedApart(s, tiers, Disjoint);
    }
    if PairwiseApart(tiers, Disjoint) {
      PermutedApart(tiers, s, Disjoint);
      forall i | 0 < i < |s|
        ensures EndsBefore(s[i - 1], s[i])
      {
        assert Disjoint(s[i - 1], s[i]) && ByMin(s[i - 1], s[i]);
      }
    }
  }

  /** The first place at which a sorted list fails, and how. */
  ghost predicate FirstFault(s: seq<Tier>, i: nat, error: TierError) {
    && 0 < i < |s|
    && (forall k :: 0 < k < i ==> EndsBefore(s[k - 1], s[k]))
    && (if s[i - 1].maxQty.None? then error == UnlimitedNotLast
        else s[i].minQty < s[i - 1].maxQty.value && error == Overlap(i))
  }

  /**
   The validator accepts exactly the lists whose tiers overlap nowhere, in whatever order given, and
   otherwise reports the first fault in sorted order: a tier without end before another, or an overlap.
   */
  method ValidateBulkTiers(tiers: seq<Tier>) returns (error: Option<TierError>)
    ensures error == None <==> PairwiseApart(tiers, Disjoint)
    ensures error.Some? ==> exists i :: FirstFault(SortTiers(tiers), i, error.value)
  {
    var sorted := SortTiers(tiers);
    NeighboursDecide(tiers);
    for i := 0 to |sorted|
      invariant forall k :: 0 < k < i ==> EndsBefore(sorted[k - 1], sorted[k])
    {
      if i > 0 {
        var prev := sorted[i - 1];
        if prev.maxQty == None {
          assert !EndsBefore(sorted[i - 1], sorted[i]);
          assert FirstFault(sorted, i, UnlimitedNotLast);
          return Some(UnlimitedNotLast);
        }
        if sorted[i].minQty < prev.maxQty.value {
          assert !EndsBefore(sorted[i - 1], sorted[i]);
          assert FirstFault(sorted, i, Overlap(i));
          return Some(Overlap(i));
        }
      }
    }
    return None;
  }

  // ---------------------------------------------------------------------------------------------
  // Lookup
  // ---------------------------------------------------------------------------------------------

  /** The price of a tier with the greatest minimum not above the quantity, else the list price. */
  ghost predicate IsPrice(listPrice: int, tiers: seq<Tier>, qty: int, price: int) {
    if forall t :: t in tiers ==> qty < t.minQty then price == listPrice
    else exists t :: t in tiers && Applies(tiers, qty, t) && price == t.price
  }

  ghost predicate Applies(tiers: seq<Tier>, qty: int, t: Tier) {
    t.minQty <= qty && forall u :: u in tiers && u.minQty <= qty ==> u.minQty <= t.minQty
  }

  /** The lookup, from the highest tier down. A quantity past a tier's maximum still gets its price. */
  method GetPriceForQuantity(listPrice: int, tiers: seq<Tier>, qty: int) returns (price: int)
    ensures IsPrice(listPrice, tiers, qty, price)
  {
    var sorted := SortTiers(tiers);
    SameMembers(sorted, tiers);
    var i := |sorted|;
    while i > 0
      invariant 0 <= i <= |sorted|
      invariant forall k :: i <= k < |sorted| ==> qty < sorted[k].minQty
    {
      i := i - 1;
      var tier := sorted[i];
      if qty >= tier.minQty {
        assert Applies(tiers, qty, tier) by {
          forall u | u in tiers && u.minQty <= qty
            ensures u.minQty <= tier.minQty
          {
            assert u in sorted;
            var k :| 0 <= k < |sorted| && sorted[k] == u;
            assert k < i ==> ByMin(sorted[k], sorted[i]);
          }
        }
        assert tier in tiers;
        return tier.price;
      }
    }
    forall t | t in tiers
      ensures qty < t.minQty
    {
      assert t in sorted;
    }
    return listPrice;
  }

  /** A gap passes the validator, and a quantity in it gets the price of the tier below, past its maximum. */
  lemma GapAccepted(listPrice: int)
    ensures var tiers: seq<Tier> := [TierFields(0, Some(10), 7), TierFields(20, None, 5)];
      && PairwiseApart(tiers, Disjoint)
      && IsPrice(listPrice, tiers, 15, 7)
  {
    var tiers: seq<Tier> := [TierFields(0, Some(10), 7), TierFields(20, None, 5)];
    assert tiers[0] in tiers && Applies(tiers, 15, tiers[0]);
  }

  /** Validated tiers have distinct minimums, so at most one tier applies. */
  lemma OneTierApplies(tiers: seq<Tier>, qty: int, t: Tier, u: Tier)
    requires PairwiseApart(tiers, Disjoint) && t in tiers && u in tiers
    requires Applies(tiers, qty, t) && Applies(tiers, qty, u)
    ensures t == u
  {
    var i :| 0 <= i < |tiers| && tiers[i] == t;
    var j :| 0 <= j < |tiers| && tiers[j] == u;
    assert i < j ==> Disjoint(tiers[i], tiers[j]);
    assert j < i ==> Disjoint(tiers[j], tiers[i]);
  }

  /** On validated tiers the price is determined by the quantity, whatever order the tiers are in. */
  lemma PriceDetermined(listPrice: int, tiers: seq<Tier>, reordered: seq<Tier>, qty: int, p: int, q: int)
    requires PairwiseApart(tiers, Disjoint) && multiset(tiers) == multiset(reordered)
    requires IsPrice(listPrice, tiers, qty, p) && IsPrice(listPrice, reordered, qty, q)
    ensures p == q
  {
    SameMembers(tiers, reordered);
    if exists t :: t in tiers && t.minQty <= qty {
      var t :| t in tiers && Applies(tiers, qty, t) && p == t.price;
      var u :| u in reordered && Applies(reordered, qty, u) && q == u.price;
      assert Applies(tiers, qty, u);
      OneTierApplies(tiers, qty, t, u);
    }
  }

  /** Ordering more never costs more per unit, over the quantities an order can have. */
  ghost predicate Antitone(listPrice: int, tiers: seq<Tier>) {
    forall q1, q2, p1, p2 ::
      0 < q1 <= q2 && IsPrice(listPrice, tiers, q1, p1) && IsPrice(listPrice, tiers, q2, p2) ==> p1 >= p2
  }

  /** The smallest quantity an order can have at this tier's price. */
  function FirstQuantity(t: Tier): int {
    if t.minQty > 0 then t.minQty else 1
  }

  /** Some order gets the tier's price. */
  ghost predicate Reachable(tiers: seq<Tier>, t: Tier) {
    t in tiers && Applies(tiers, FirstQuantity(t), t)
  }

  /** Some order is below every tier and gets the list price. */
  ghost predicate ListPriceReachable(tiers: seq<Tier>) {
    forall t :: t in tiers ==> 1 < t.minQty
  }

  /** The prices that orders can get fall from the list price down, tier by tier. */
  ghost predicate PricesFall(listPrice: int, tiers: seq<Tier>) {
    && (ListPriceReachable(tiers) ==> forall t :: Reachable(tiers, t) ==> t.price <= listPrice)
    && (forall t, u :: Reachable(tiers, t) && Reachable(tiers, u) && t.minQty < u.minQty ==> t.price >= u.price)
  }

  lemma ReachablePrice(listPrice: int, tiers: seq<Tier>, t: Tier)
    requires Reachable(tiers, t)
    ensures IsPrice(listPrice, tiers, FirstQuantity(t), t.price)
  {
    assert Applies(tiers, FirstQuantity(t), t);
  }

  /**
   On validated tiers: exactly when the prices that orders can get fall tier by tier, and none exceeds
   the list price if some order is below every tier.
   */
  lemma AntitoneIff(listPrice: int, tiers: seq<Tier>)
    requires PairwiseApart(tiers, Disjoint)
    ensures Antitone(listPrice, tiers) <==> PricesFall(listPrice, tiers)
  {
    if PricesFall(listPrice, tiers) {
      forall q1, q2, p1, p2 | 0 < q1 <= q2 && IsPrice(listPrice, tiers, q1, p1) && IsPrice(listPrice, tiers, q2, p2)
        ensures p1 >= p2
      {
        FallingPricesCompare(listPrice, tiers, q1, q2, p1, p2);
      }
    }
    if Antitone(listPrice, tiers) {
      AntitonePricesFall(listPrice, tiers);
    }
  }

  lemma AntitonePricesFall(listPrice: int, tiers: seq<Tier>)
    requires PairwiseApart(tiers, Disjoint) && Antitone(listPrice, tiers)
    ensures PricesFall(listPrice, tiers)
  {
    if ListPriceReachable(tiers) {
      assert IsPrice(listPrice, tiers, 1, listPrice);
      forall t | Reachable(tiers, t)
        ensures t.price <= listPrice
      {
        ReachablePrice(listPrice, tiers, t);
      }
    }
    forall t, u | Reachable(tiers, t) && Reachable(tiers, u) && t.minQty < u.minQty
      ensures t.price >= u.price
    {
      ReachablePrice(listPrice, tiers, t);
      ReachablePrice(listPrice, tiers, u);
    }
  }

  lemma FallingPricesCompare(listPrice: int, tiers: seq<Tier>, q1: int, q2: int, p1: int, p2: int)
    requires PairwiseApart(tiers, Disjoint) && PricesFall(listPrice, tiers)
    requires 0 < q1 <= q2 && IsPrice(listPrice, tiers, q1, p1) && IsPrice(listPrice, tiers, q2, p2)
    ensures p1 >= p2
  {
    if exists t :: t in tiers && t.minQty <= q1 {
      var t :| t in tiers && Applies(tiers, q1, t) && p1 == t.price;
      var u :| u in tiers && Applies(tiers, q2, u) && p2 == u.price;
      if t.minQty == u.minQty {
        assert Applies(tiers, q2, t);
        OneTierApplies(tiers, q2, t, u);
      }
    } else if exists u :: u in tiers && u.minQty <= q2 {
      var u :| u in tiers && Applies(tiers, q2, u) && p2 == u.price;
    }
  }
}
