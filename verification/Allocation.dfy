/** Largest-remainder allocation of a vehicle count over origins
    (sensitivity_analysis/sensitivity.py). */
module Allocation {
  import opened Wrappers
  import opened LinearAlgebra
  import opened Projection
  import opened Sorting

  function Positive(x: real): real {
    Max(x, 0.0)
  }

  function Quota(count: nat, share: real, total: real): real
    requires total > 0.0
  {
    count as real * Positive(share) / total
  }

  function Quotas(count: nat, shares: Vector): (q: Vector)
    requires Sum(shares) > 0.0
    ensures |q| == |shares| && forall k :: 0 <= k < |q| ==> q[k] == Quota(count, shares[k], Sum(shares))
  {
    seq(|shares|, k requires 0 <= k < |shares| => Quota(count, shares[k], Sum(shares)))
  }

  function Floors(q: Vector): (f: seq<int>)
    ensures |f| == |q| && forall k :: 0 <= k < |f| ==> f[k] == q[k].Floor
  {
    seq(|q|, k requires 0 <= k < |q| => q[k].Floor)
  }

  function Fraction(x: real): real {
    x - x.Floor as real
  }

  /** Index i is served strictly before index j: larger fractional part, then smaller id. */
  predicate Before(q: Vector, ids: seq<string>, i: nat, j: nat) {
    && i < |q| && j < |q| && |ids| == |q|
    && (Fraction(q[i]) > Fraction(q[j]) || (Fraction(q[i]) == Fraction(q[j]) && StringBefore(ids[i], ids[j])))
  }

  function Indices(n: nat): (r: seq<nat>)
    ensures |r| == n && forall k :: 0 <= k < n ==> r[k] == k
  {
    if n == 0 then [] else Indices(n - 1) + [n - 1]
  }

  function By(q: Vector, ids: seq<string>): (nat, nat) -> bool {
    (i: nat, j: nat) => Before(q, ids, i, j)
  }

  /** All indices in service order. */
  function Order(q: Vector, ids: seq<string>): (r: seq<nat>)
    ensures |r| == |q| && forall k :: 0 <= k < |r| ==> r[k] < |q|
  {
    var r := Sort(Indices(|q|), By(q, ids));
    SortMembers(Indices(|q|), By(q, ids));
    assert forall k :: 0 <= k < |r| ==> r[k] in Indices(|q|);
    r
  }

  /** How many entries order[:remainder] selects, for negative remainders too. */
  function SliceLength(length: nat, remainder: int): (n: nat)
    ensures n <= length
  {
    if remainder >= 0 then if remainder <= length then remainder else length
    else if length + remainder >= 0 then length + remainder else 0
  }

  function Bump(counts: seq<int>, order: seq<nat>): (r: seq<int>)
    requires forall k :: 0 <= k < |order| ==> order[k] < |counts|
    ensures |r| == |counts|
    decreases |order|
  {
    if order == [] then counts
    else
      var last := order[|order| - 1];
      var earlier := Bump(counts, order[..|order| - 1]);
      earlier[last := earlier[last] + 1]
  }

  function Allocate(ids: seq<string>, shares: Vector, count: nat): (r: Result<seq<int>, string>)
    ensures r.Ok? ==> |r.value| == |ids|
  {
    if |ids| != |shares| then Err("Origin IDs and percentages have different lengths.")
    else if ids == [] then
      if count != 0 then Err("The model has no vehicle generation points.") else Ok([])
    else if count == 0 then Ok(seq(|ids|, _ => 0))
    else if Sum(shares) <= 0.0 then Err("Vehicle-origin percentages add up to zero.")
    else
      var q := Quotas(count, shares);
      var floors := Floors(q);
      Ok(Bump(floors, Order(q, ids)[..SliceLength(|ids|, count - SumInt(floors))]))
  }

  /** The source's loop over the selected indices, incrementing the counts in place. */
  method AllocateCounts(ids: seq<string>, shares: Vector, count: nat) returns (r: Result<seq<int>, string>)
    ensures r == Allocate(ids, shares, count)
  {
    if |ids| != |shares| {
      return Err("Origin IDs and percentages have different lengths.");
    }
    if ids == [] {
      return if count != 0 then Err("The model has no vehicle generation points.") else Ok([]);
    }
    if count == 0 {
      return Ok(seq(|ids|, _ => 0));
    }
    if Sum(shares) <= 0.0 {
      return Err("Vehicle-origin percentages add up to zero.");
    }
    var exact := Quotas(count, shares);
    var result := Floors(exact);
    var selected := Order(exact, ids)[..SliceLength(|ids|, count - SumInt(result))];
    for i := 0 to |selected|
      invariant |result| == |ids|
      invariant result == Bump(Floors(exact), selected[..i])
    {
      assert selected[..i + 1][..i] == selected[..i];
      result := result[selected[i] := result[selected[i]] + 1];
    }
    assert selected[..|selected|] == selected;
    r := Ok(result);
  }

  // ---- order and increments ----

  lemma BeforeOrder(q: Vector, ids: seq<string>, i: nat, j: nat, k: nat)
    requires i < |q| == |ids| && j < |q| && k < |q|
    ensures !Before(q, ids, i, j) && !Before(q, ids, j, k) ==> !Before(q, ids, i, k)
    ensures Before(q, ids, i, j) ==> !Before(q, ids, j, i)
  {
    StringOrder(ids[i], ids[j], ids[k]);
  }

  lemma {:induction false} IndexOnce(n: nat, k: nat)
    ensures multiset(Indices(n))[k] == if k < n then 1 else 0
  {
    if n > 0 {
      IndexOnce(n - 1, k);
    }
  }

  lemma OrderSortsAll(q: Vector, ids: seq<string>)
    requires |q| == |ids|
    ensures Sorted(Order(q, ids), By(q, ids)) && multiset(Order(q, ids)) == multiset(Indices(|q|))
  {
    ServiceOrdering(q, ids);
    hide *;
    SortHolds(Indices(|q|), By(q, ids));
    SortSorts(Indices(|q|), By(q, ids));
    OrderIsSort(q, ids);
  }

  lemma OrderIsSort(q: Vector, ids: seq<string>)
    ensures Order(q, ids) == Sort(Indices(|q|), By(q, ids))
  {
  }

  lemma ServiceOrdering(q: Vector, ids: seq<string>)
    requires |q| == |ids|
    ensures Ordering(Indices(|q|), By(q, ids))
  {
    forall i, j, k | i in Indices(|q|) && j in Indices(|q|) && k in Indices(|q|)
      ensures !By(q, ids)(i, j) && !By(q, ids)(j, k) ==> !By(q, ids)(i, k)
      ensures By(q, ids)(i, j) ==> !By(q, ids)(j, i)
    {
      BeforeOrder(q, ids, i, j, k);
    }
  }

  /** Each occurrence in the order adds one. */
  lemma {:induction false} BumpAdds(counts: seq<int>, order: seq<nat>)
    requires forall k :: 0 <= k < |order| ==> order[k] < |counts|
    ensures SumInt(Bump(counts, order)) == SumInt(counts) + |order|
    ensures forall k :: 0 <= k < |counts| ==> Bump(counts, order)[k] == counts[k] + multiset(order)[k]
    decreases |order|
  {
    if order != [] {
      var front, last := order[..|order| - 1], order[|order| - 1];
      BumpAdds(counts, front);
      assert order == front + [last];
      SumIntUpdate(Bump(counts, front), last, Bump(counts, front)[last] + 1);
    }
  }

  // ---- exactness ----

  predicate NonNegative(shares: Vector) {
    forall k :: 0 <= k < |shares| ==> shares[k] >= 0.0
  }

  lemma {:induction false} FloorSum(q: Vector)
    ensures SumInt(Floors(q)) as real <= Sum(q)
    ensures q != [] ==> Sum(q) < SumInt(Floors(q)) as real + |q| as real
  {
    if q != [] {
      FloorSum(q[1..]);
      assert Floors(q)[1..] == Floors(q[1..]);
    }
  }

  lemma {:induction false} QuotaSum(count: nat, shares: Vector, total: real, q: Vector)
    requires total > 0.0 && |q| == |shares| && NonNegative(shares)
    requires forall k :: 0 <= k < |q| ==> q[k] == Quota(count, shares[k], total)
    ensures Sum(q) == count as real * Sum(shares) / total
  {
    if q != [] {
      QuotaSum(count, shares[1..], total, q[1..]);
      QuotientAdds(count as real, shares[0], Sum(shares[1..]), total);
    }
  }

  lemma QuotientAdds(c: real, x: real, y: real, total: real)
    requires total > 0.0
    ensures c * x / total + c * y / total == c * (x + y) / total
  {
    assert c * (x + y) == c * x + c * y;
  }

  /** On non-negative shares the quotas add up to the count, so between zero and n - 1 units
      are left to hand out. */
  lemma RemainderInRange(shares: Vector, count: nat)
    requires Sum(shares) > 0.0 && NonNegative(shares)
    ensures 0 <= count - SumInt(Floors(Quotas(count, shares))) < |shares|
  {
    var q := Quotas(count, shares);
    hide Sum, SumInt, Quota, Floors;
    QuotasAddUp(shares, count);
    FloorSum(q);
  }

  lemma QuotasAddUp(shares: Vector, count: nat)
    requires Sum(shares) > 0.0 && NonNegative(shares)
    ensures Sum(Quotas(count, shares)) == count as real
    ensures Quotas(count, shares) != []
  {
    QuotaSum(count, shares, Sum(shares), Quotas(count, shares));
    QuotientCancels(count as real, Sum(shares));
  }

  lemma QuotientCancels(c: real, total: real)
    requires total > 0.0
    ensures c * total / total == c
  {
  }

  /** Which indices get one more than their floor. */
  ghost predicate Rounded(q: Vector, counts: seq<int>, k: nat)
    requires k < |q| == |counts|
  {
    counts[k] == q[k].Floor + 1
  }

  /** The largest-remainder rule: every entry is its quota's floor or one more, and no entry left
      at its floor has a larger remainder than one that was rounded up, or the same one and a
      smaller identifier. */
  ghost predicate LargestRemainder(q: Vector, ids: seq<string>, counts: seq<int>)
    requires |q| == |ids| == |counts|
  {
    && (forall k :: 0 <= k < |q| ==> counts[k] == q[k].Floor || Rounded(q, counts, k))
    && (forall i, j :: 0 <= i < |q| && 0 <= j < |q| && Rounded(q, counts, i) && !Rounded(q, counts, j) ==>
          NotBehind(q, ids, i, j))
  }

  ghost predicate NotBehind(q: Vector, ids: seq<string>, i: nat, j: nat)
    requires i < |q| && j < |q| && |ids| == |q|
  {
    var x, y := q[i] - q[i].Floor as real, q[j] - q[j].Floor as real;
    x >= y && (x == y ==> !StringBefore(ids[j], ids[i]))
  }

  lemma NotBehindIff(q: Vector, ids: seq<string>, i: nat, j: nat)
    requires i < |q| && j < |q| && |ids| == |q|
    ensures NotBehind(q, ids, i, j) <==> !Before(q, ids, j, i)
  {
    hide StringBefore;
  }

  /** The allocation always follows the largest-remainder rule, and it adds up to the count
      exactly when the floors of the quotas do not already exceed it. */
  lemma AllocationRule(ids: seq<string>, shares: Vector, count: nat)
    requires |ids| == |shares| && ids != [] && count > 0 && Sum(shares) > 0.0
    ensures var r := Allocate(ids, shares, count);
            && r.Ok? && LargestRemainder(Quotas(count, shares), ids, r.value)
            && (forall k :: 0 <= k < |shares| ==>
                  Times(Quotas(count, shares)[k], Sum(shares)) == Times(count as real, Max(shares[k], 0.0)))
            && (SumInt(r.value) == count
                <==> SumInt(Floors(Quotas(count, shares))) <= count <= SumInt(Floors(Quotas(count, shares))) + |ids|)
  {
    var q := Quotas(count, shares);
    forall k | 0 <= k < |shares|
      ensures Times(q[k], Sum(shares)) == Times(count as real, Max(shares[k], 0.0))
    {
      QuotaIs(count, shares[k], Sum(shares));
    }
    var floors, order := Floors(q), Order(q, ids);
    var selected := order[..SliceLength(|ids|, count - SumInt(floors))];
    OrderSortsAll(q, ids);
    BumpAdds(floors, selected);
    SelectionRule(q, ids, order, |selected|);
    assert Allocate(ids, shares, count) == Ok(Bump(floors, selected));
    assert order[..|selected|] == selected;
    hide Allocate, Bump, Order, Quotas, Floors, Sum, SumInt, LargestRemainder, Times;
  }

  lemma SelectionRule(q: Vector, ids: seq<string>, order: seq<nat>, n: nat)
    requires |q| == |ids| == |order| && n <= |q| && (forall k :: 0 <= k < |order| ==> order[k] < |q|)
    requires Sorted(order, By(q, ids)) && multiset(order) == multiset(Indices(|q|))
    ensures LargestRemainder(q, ids, Bump(Floors(q), order[..n]))
  {
    var counts := Bump(Floors(q), order[..n]);
    hide *;
    forall k | 0 <= k < |q|
      ensures counts[k] == q[k].Floor || Rounded(q, counts, k)
      ensures Rounded(q, counts, k) ==> exists a :: 0 <= a < n && order[a] == k
      ensures !Rounded(q, counts, k) ==> exists b :: n <= b < |q| && order[b] == k
    {
      RoundedIffTaken(q, order, n, k);
    }
    TakenComeFirst(q, ids, order, n, counts);
  }

  lemma RoundedIffTaken(q: Vector, order: seq<nat>, n: nat, k: nat)
    requires |q| == |order| && n <= |q| && (forall i :: 0 <= i < |order| ==> order[i] < |q|) && k < |q|
    requires multiset(order) == multiset(Indices(|q|))
    ensures var counts := Bump(Floors(q), order[..n]);
            && (counts[k] == q[k].Floor || Rounded(q, counts, k))
            && (Rounded(q, counts, k) ==> exists a :: 0 <= a < n && order[a] == k)
            && (!Rounded(q, counts, k) ==> exists b :: n <= b < |q| && order[b] == k)
  {
    hide Before, Bump, SumInt, Indices;
    BumpAdds(Floors(q), order[..n]);
    IndexOnce(|q|, k);
    SplitOnce(order, n, k);
  }

  lemma TakenComeFirst(q: Vector, ids: seq<string>, order: seq<nat>, n: nat, counts: seq<int>)
    requires |q| == |ids| == |order| == |counts| && n <= |q| && Sorted(order, By(q, ids))
    requires forall k :: 0 <= k < |q| ==> counts[k] == q[k].Floor || Rounded(q, counts, k)
    requires forall k :: 0 <= k < |q| && Rounded(q, counts, k) ==> exists a :: 0 <= a < n && order[a] == k
    requires forall k :: 0 <= k < |q| && !Rounded(q, counts, k) ==> exists b :: n <= b < |q| && order[b] == k
    ensures LargestRemainder(q, ids, counts)
  {
    hide Before, Rounded;
    forall i, j | 0 <= i < |q| && 0 <= j < |q| && Rounded(q, counts, i) && !Rounded(q, counts, j)
      ensures NotBehind(q, ids, i, j)
    {
      var a :| 0 <= a < n && order[a] == i;
      var b :| n <= b < |q| && order[b] == j;
      assert !By(q, ids)(order[b], order[a]);
      NotBehindIff(q, ids, i, j);
    }
  }

  /** Every index stands exactly once in the order, before or after position n. */
  lemma SplitOnce(order: seq<nat>, n: nat, k: nat)
    requires n <= |order| && multiset(order)[k] == 1
    ensures multiset(order[..n])[k] <= 1
    ensures multiset(order[..n])[k] == 1 ==> exists a :: 0 <= a < n && order[a] == k
    ensures multiset(order[..n])[k] == 0 ==> exists b :: n <= b < |order| && order[b] == k
  {
    assert order == order[..n] + order[n..];
    assert multiset(order)[k] == multiset(order[..n])[k] + multiset(order[n..])[k];
    OccursAt(order[..n], k);
    OccursAt(order[n..], k);
    if b :| 0 <= b < |order[n..]| && order[n..][b] == k {
      assert order[n + b] == k;
    }
    if a :| 0 <= a < n && order[..n][a] == k {
      assert order[a] == k;
    }
  }

  lemma OccursAt(s: seq<nat>, k: nat)
    ensures multiset(s)[k] > 0 <==> exists a :: 0 <= a < |s| && s[a] == k
  {
    assert k in multiset(s) <==> k in s;
  }

  /** On non-negative shares the allocation adds up to the count exactly. */
  lemma AllocationIsExact(ids: seq<string>, shares: Vector, count: nat)
    requires |ids| == |shares| && ids != [] && Sum(shares) > 0.0 && NonNegative(shares)
    ensures var r := Allocate(ids, shares, count);
            && r.Ok? && SumInt(r.value) == count && forall k :: 0 <= k < |ids| ==> r.value[k] >= 0
  {
    if count == 0 {
      ZerosSum(|ids|);
    } else {
      AllocationRule(ids, shares, count);
      RemainderInRange(shares, count);
      var q, r := Quotas(count, shares), Allocate(ids, shares, count).value;
      forall k | 0 <= k < |ids|
        ensures r[k] >= 0
      {
        QuotaNonNegative(count, shares[k], Sum(shares));
        assert r[k] == q[k].Floor || Rounded(q, r, k);
      }
    }
  }

  lemma QuotaIs(count: nat, share: real, total: real)
    requires total > 0.0
    ensures Times(Quota(count, share, total), total) == Times(count as real, Max(share, 0.0))
  {
  }

  lemma QuotaNonNegative(count: nat, share: real, total: real)
    requires total > 0.0
    ensures Quota(count, share, total) >= 0.0
  {
    assert count as real * Positive(share) >= 0.0;
  }

  lemma {:induction false} ZerosSum(n: nat)
    ensures SumInt(seq(n, _ => 0)) == 0
  {
    var z: seq<int> := seq(n, _ => 0);
    if n > 0 {
      ZerosSum(n - 1);
      var t: seq<int> := seq(n - 1, _ => 0);
      assert z[1..] == t;
    }
  }

  /** A negative share breaks the total: one vehicle over shares 2 and -1 allocates three. */
  lemma NegativeShareOverallocates()
    ensures Allocate(["a", "b"], [2.0, -1.0], 1) == Ok([3, 0])
  {
    var ids, shares := ["a", "b"], [2.0, -1.0];
    assert Sum(shares) == 1.0 by {
      assert shares[1..] == [-1.0];
    }
    var q: Vector := [2.0, 0.0];
    assert Quota(1, 2.0, 1.0) == 2.0 && Quota(1, -1.0, 1.0) == 0.0;
    assert Quotas(1, shares) == q;
    assert Floors(q) == [2, 0];
    assert SumInt([2, 0]) == 2 by {
      assert [2, 0][1..] == [0];
    }
    OrderOfTies(q, ids);
    var selected := Order(q, ids)[..1];
    assert selected == [0];
    assert selected[..0] == [];
    assert Bump([2, 0], selected) == [3, 0];
  }

  lemma OrderOfTies(q: Vector, ids: seq<string>)
    requires q == [2.0, 0.0] && ids == ["a", "b"]
    ensures Order(q, ids) == [0, 1]
  {
    OrderSortsAll(q, ids);
    var order := Order(q, ids);
    IndexOnce(2, 0);
    IndexOnce(2, 1);
    assert order == [order[0], order[1]];
    assert multiset(order) == multiset{order[0], order[1]};
    assert Before(q, ids, 0, 1);
  }

  lemma {:induction false} FloorsOfIntegers(q: Vector, counts: seq<int>)
    requires |q| == |counts| && forall k :: 0 <= k < |q| ==> q[k] == counts[k] as real
    ensures Floors(q) == counts
  {
  }

  /** Shares that are proportional to whole counts are allocated as those counts. */
  lemma AllocationOfWholeShares(ids: seq<string>, shares: Vector, counts: seq<int>, count: nat)
    requires |ids| == |shares| == |counts| && ids != [] && count > 0 && SumInt(counts) == count && Sum(shares) > 0.0
    requires forall k :: 0 <= k < |counts| ==> Quota(count, shares[k], Sum(shares)) == counts[k] as real
    ensures Allocate(ids, shares, count) == Ok(counts)
  {
    FloorsOfIntegers(Quotas(count, shares), counts);
    assert Order(Quotas(count, shares), ids)[..0] == [];
  }
}
