/** How a damage condition spreads its total over a falling list of hits. */
module DamageList {
  import opened Sums

  function Triangle(n: nat): nat {
    if n == 0 then 0 else n + Triangle(n - 1)
  }

  lemma {:induction false} TriangleTwice(n: nat)
    ensures 2 * Triangle(n) == n * (n + 1)
  {
    if n > 0 {
      TriangleTwice(n - 1);
    }
  }

  predicate Falling(list: seq<int>) {
    forall j, k :: 0 <= j < k < |list| ==> list[j] >= list[k]
  }

  function Abs(x: int): nat {
    if x < 0 then -x else x
  }

  /**
   * Would one more hit of i bring the sum closer to med? Both distances of the source are divided by med;
   * against a med of zero both are infinite, and neither is closer. `tie` settles equal distances, which
   * floating point may round either way.
   */
  predicate Closer(sum: int, i: int, med: int, tie: bool) {
    med != 0 && (Abs(med - (sum + i)) < Abs(med - sum) || (Abs(med - (sum + i)) == Abs(med - sum) && tie))
  }

  /** The share of the amount due after n of the start values have had their turn. */
  function Median(amount: nat, start: nat, n: nat): nat
    requires start > 0
  {
    n * amount / start
  }

  lemma DivFloor(a: int, k: nat)
    requires k > 0
    ensures k * (a / k) <= a < k * (a / k) + k
  {
  }

  lemma MulMonotone(k: nat, a: int, b: int)
    requires a <= b
    ensures k * a <= k * b
  {
  }

  lemma MulStrict(k: nat, a: int, b: int)
    requires k > 0 && a < b
    ensures k * a + k <= k * b
  {
    MulMonotone(k, 1, b - a);
    assert k * (b - a) == k * b - k * a;
  }

  lemma MulCancel(k: nat, a: int, b: int)
    requires k > 0 && k * a <= k * b
    ensures a <= b
  {
    if a > b {
      MulStrict(k, b, a);
    }
  }

  lemma DivExact(k: nat, x: nat)
    requires k > 0
    ensures k * x / k == x
  {
    var q := k * x / k;
    DivFloor(k * x, k);
    MulCancel(k, q, x);
    if q < x {
      MulStrict(k, q, x);
    }
  }

  lemma MedianLeaves(amount: nat, start: nat, i: nat)
    requires 1 <= i <= start && amount >= Triangle(start)
    ensures 2 * (amount - Median(amount, start, start + 1 - i)) >= (i - 1) * (i + 1)
  {
    var n, rest := start + 1 - i, i - 1;
    var med := Median(amount, start, n);
    TriangleTwice(start);
    DivFloor(n * amount, start);
    Split(start, n, rest, amount, med);
    var wide := start * (start + 1);
    MulMonotone(rest, wide, 2 * amount);
    Regroup(rest, start, amount);
    MulCancel(start, rest * (start + 1), 2 * (amount - med));
    MulMonotone(rest, i + 1, start + 1);
  }

  lemma Split(start: nat, n: nat, rest: nat, amount: int, med: int)
    requires n + rest == start && start * med <= n * amount
    ensures rest * amount <= start * (amount - med)
  {
    assert start * (amount - med) == start * amount - start * med;
    assert (n + rest) * amount == n * amount + rest * amount;
  }

  lemma Regroup(rest: nat, start: nat, amount: int)
    ensures rest * (start * (start + 1)) == start * (rest * (start + 1))
    ensures rest * (2 * amount) == 2 * (rest * amount)
    ensures forall x: int {:trigger start * (2 * x)} :: start * (2 * x) == 2 * (start * x)
  {
  }

  /** While the sum is at most half a step past its share, every smaller value still fits once. */
  lemma RoomForTheRest(amount: nat, start: nat, i: nat, sum: int)
    requires 1 <= i <= start && amount >= Triangle(start)
    requires 2 * sum <= 2 * Median(amount, start, start + 1 - i) + i
    ensures sum + Triangle(i - 1) <= amount
  {
    var med := Median(amount, start, start + 1 - i);
    MedianLeaves(amount, start, i);
    TriangleTwice(i - 1);
    Squares(i);
  }

  lemma Squares(i: nat)
    requires i >= 1
    ensures (i - 1) * (i + 1) == i * i - 1 && (i - 1) * (i - 1 + 1) == i * i - i
  {
  }

  // ---------- how the amount is spread ----------

  /** What the hits of at least i add up to. */
  function SumFrom(list: seq<int>, i: int): int {
    if list == [] then 0 else (if list[0] >= i then list[0] else 0) + SumFrom(list[1..], i)
  }

  lemma {:induction false} SumFromAppend(list: seq<int>, x: int, i: int)
    ensures SumFrom(list + [x], i) == SumFrom(list, i) + if x >= i then x else 0
  {
    if list == [] {
      assert list + [x] == [x];
    } else {
      assert (list + [x])[1..] == list[1..] + [x];
      SumFromAppend(list[1..], x, i);
    }
  }

  lemma {:induction false} SumFromAll(list: seq<int>, i: int)
    requires forall j :: 0 <= j < |list| ==> i <= list[j]
    ensures SumFrom(list, i) == Sum(list)
  {
    if list != [] {
      SumFromAll(list[1..], i);
    }
  }

  /**
   * The hits down to i add up to the share due after i's turn, give or take half of i. They fall no shorter, and
   * exceed it by more only where already the first hit of i does.
   */
  predicate SpreadAt(list: seq<int>, amount: nat, start: nat, i: int)
    requires 1 <= i <= start
  {
    var med, sum := Median(amount, start, start + 1 - i), SumFrom(list, i);
    if med == 0 then multiset(list)[i] == 1
    else 2 * med <= 2 * sum + i && (2 * sum <= 2 * med + i || multiset(list)[i] == 1)
  }

  ghost predicate Spread(list: seq<int>, amount: nat, start: nat, i: nat) {
    forall j {:trigger SpreadAt(list, amount, start, j)} :: i < j <= start ==> SpreadAt(list, amount, start, j)
  }

  /** The values from low to start, falling. */
  ghost predicate Dealt(list: seq<int>, start: nat, low: int) {
    Falling(list) && forall v :: low <= v <= start <==> v in list
  }

  lemma DealtOn(list: seq<int>, start: nat, i: int)
    requires i <= start && (Dealt(list, start, i + 1) || Dealt(list, start, i))
    ensures Dealt(list + [i], start, i)
  {
    assert forall j :: 0 <= j < |list| ==> list[j] in list;
    assert (list + [i])[|list|] == i;
    assert forall v :: v in list + [i] <==> v in list || v == i;
  }

  /** Smaller hits leave the shares of the larger ones alone. */
  lemma SpreadOn(list: seq<int>, amount: nat, start: nat, i: int)
    requires 1 <= i && Spread(list, amount, start, i)
    ensures Spread(list + [i], amount, start, i)
  {
    forall j | i < j <= start ensures SpreadAt(list + [i], amount, start, j) {
      assert SpreadAt(list, amount, start, j);
      SumFromAppend(list, i, j);
    }
  }

  lemma SpreadDone(list: seq<int>, amount: nat, start: nat, i: int)
    requires 1 <= i <= start && Spread(list, amount, start, i)
    requires Dealt(list, start, i)
    requires var med, sum := Median(amount, start, start + 1 - i), Sum(list);
      if med == 0 then multiset(list)[i] == 1
      else 2 * med <= 2 * sum + i && (2 * sum <= 2 * med + i || multiset(list)[i] == 1)
    ensures Spread(list, amount, start, i - 1)
  {
    assert forall j :: 0 <= j < |list| ==> list[j] in list;
    SumFromAll(list, i);
    forall j | i - 1 < j <= start ensures SpreadAt(list, amount, start, j) {
      assert j > i ==> SpreadAt(list, amount, start, j);
    }
  }

  /**
   * `generateDamageList`: the hits fall from start to 1, each value at least once, and at each value the sum so far
   * is as near to its share as the value allows. The hits never add up to less than the amount, and to the amount
   * itself exactly when it covers each value once, however ties are broken.
   */
  method GenerateDamageList(amount: int, start: nat, tie: (int, int) -> bool) returns (list: seq<int>)
    requires start * Abs(amount) < 0x8000_0000
    ensures Dealt(list, start, 1)
    ensures Spread(list, Abs(amount), start, 0)
    ensures start > 0 ==> Sum(list) >= Abs(amount)
    ensures Sum(list) == Abs(amount) <==> if start == 0 then amount == 0 else Abs(amount) >= Triangle(start)
  {
    var total := Abs(amount);
    var sum := 0;
    list := [];
    var i := start;
    while i > 0
      invariant 0 <= i <= start && sum == Sum(list) && Dealt(list, start, i + 1) && (start == 0 ==> list == [])
      invariant Spread(list, total, start, i)
      invariant sum >= Triangle(start) - Triangle(i)
      invariant start > 0 && total >= Triangle(start) ==> sum + Triangle(i) <= total
      invariant start > 0 && i == 0 ==> sum >= total
    {
      var n := start + 1 - i;
      var med := n * total / start;
      SumConcat(list, [i]);
      SpreadOn(list, total, start, i);
      DealtOn(list, start, i);
      assert i !in list;
      sum := sum + i;
      list := list + [i];
      while Closer(sum, i, med, tie(sum, i))
        invariant sum == Sum(list) && Dealt(list, start, i)
        invariant sum >= Triangle(start) - Triangle(i - 1)
        invariant Spread(list, total, start, i) && multiset(list)[i] >= 1
        invariant multiset(list)[i] == 1 || (med != 0 && 2 * sum <= 2 * med + i)
        invariant total >= Triangle(start) ==> sum + Triangle(i - 1) <= total
        decreases med - sum
      {
        SumConcat(list, [i]);
        SpreadOn(list, total, start, i);
        DealtOn(list, start, i);
        sum := sum + i;
        list := list + [i];
        if total >= Triangle(start) {
          RoomForTheRest(total, start, i, sum);
        }
      }
      SpreadDone(list, total, start, i);
      if i == 1 {
        assert med == total by {
          assert n == start;
          DivExact(start, total);
        }
      }
      i := i - 1;
    }
    assert Triangle(0) == 0;
  }

  /** The start value a condition picks for itself: the least that is not below a twentieth of the amount, and not 0. */
  function DefaultStart(amount: nat): (start: nat)
    ensures 1 <= start && amount <= 20 * start
    ensures start == 1 || 20 * (start - 1) < amount
  {
    var s := (amount + 19) / 20;
    if s > 1 then s else 1
  }

  lemma SmallStart(s: nat)
    requires 1 <= s <= 38
    ensures 2 * Triangle(s) <= 40 * s - 38
  {
    TriangleTwice(s);
    MulMonotone(s - 1, 0, 38 - s);
    assert (s - 1) * (38 - s) == 39 * s - s * s - 38;
  }

  lemma LargeStart(s: nat)
    requires s >= 40
    ensures 2 * Triangle(s) > 40 * s
  {
    TriangleTwice(s);
    MulMonotone(s, 41, s + 1);
  }

  /** With its own start value the whole amount is dealt exactly for amounts up to 760, for 780, and for no other. */
  lemma DefaultStartExact(amount: nat)
    ensures amount >= Triangle(DefaultStart(amount)) <==> 1 <= amount <= 760 || amount == 780
  {
    var s := DefaultStart(amount);
    if s >= 40 {
      LargeStart(s);
    } else if s == 39 {
      TriangleTwice(39);
    } else {
      SmallStart(s);
    }
  }
}
