/** Choosing and taking the goods of a sale from a depot box and an inbox. */
module MarketStock {
  import opened Options
  import opened Words

  /** `listed`: no attribute, and no unusual capacity, keeps the item from being sold. */
  datatype StockItem = StockItem(id: int, ware: int, count: nat, listed: bool, container: bool, items: seq<StockItem>)

  const WRAP := 0x1_0000

  /**
   * The item types of the market, by ware. `single` is not part of the program: it marks a ware of which no item
   * counts more than one. What does not stack may still count more, as charges are kept in the count.
   */
  datatype Ware = Ware(known: bool, stackable: bool, container: bool, maxCount: nat, single: bool)

  type Wares = int -> Ware

  predicate IsBox(t: StockItem) { t.container && t.items != [] }

  predicate Sells(t: StockItem, ware: int) { t.ware == ware && t.listed }

  // ---------- the goods of a forest ----------

  /** Everything that is not a filled container, at any depth. */
  function Leaves(ts: seq<StockItem>): multiset<StockItem> {
    if ts == [] then multiset{}
    else (if IsBox(ts[0]) then Leaves(ts[0].items) else multiset{ts[0]}) + Leaves(ts[1..])
  }

  /** The units of a ware, at any depth. */
  function Goods(ts: seq<StockItem>, ware: int): nat {
    if ts == [] then 0
    else (if ts[0].ware == ware then ts[0].count else 0) + Goods(ts[0].items, ware) + Goods(ts[1..], ware)
  }

  /** How often an id occurs, at any depth. */
  function Times(ts: seq<StockItem>, id: int): nat {
    if ts == [] then 0 else (if ts[0].id == id then 1 else 0) + Times(ts[0].items, id) + Times(ts[1..], id)
  }

  ghost predicate Distinct(ts: seq<StockItem>) { forall id {:trigger Times(ts, id)} :: Times(ts, id) <= 1 }

  lemma {:induction false} GoodsConcat(ts: seq<StockItem>, us: seq<StockItem>, ware: int)
    ensures Goods(ts + us, ware) == Goods(ts, ware) + Goods(us, ware)
  {
    if ts == [] {
      assert ts + us == us;
    } else {
      assert (ts + us)[1..] == ts[1..] + us;
      GoodsConcat(ts[1..], us, ware);
    }
  }

  lemma {:induction false} TimesConcat(ts: seq<StockItem>, us: seq<StockItem>, id: int)
    ensures Times(ts + us, id) == Times(ts, id) + Times(us, id)
  {
    if ts == [] {
      assert ts + us == us;
    } else {
      assert (ts + us)[1..] == ts[1..] + us;
      TimesConcat(ts[1..], us, id);
    }
  }

  lemma {:induction false} LeavesConcat(ts: seq<StockItem>, us: seq<StockItem>)
    ensures Leaves(ts + us) == Leaves(ts) + Leaves(us)
  {
    if ts == [] {
      assert ts + us == us;
    } else {
      assert (ts + us)[1..] == ts[1..] + us;
      LeavesConcat(ts[1..], us);
    }
  }

  // ---------- picking from a list of leaves ----------

  /** The search over the leaves in the order in which they are met; its counter has 16 bits. */
  function Pick(leaves: seq<StockItem>, ware: int, enough: nat, picked: seq<StockItem>, count: nat)
    : Option<seq<StockItem>>
    decreases |leaves|
  {
    if leaves == [] then None
    else if !Sells(leaves[0], ware) then Pick(leaves[1..], ware, enough, picked, count)
    else
      var picked', count' := [leaves[0]] + picked, U16(count + leaves[0].count);
      if count' >= enough then Some(picked') else Pick(leaves[1..], ware, enough, picked', count')
  }

  function Units(s: seq<StockItem>): nat { if s == [] then 0 else s[0].count + Units(s[1..]) }

  function Matching(leaves: seq<StockItem>, ware: int): nat {
    if leaves == [] then 0
    else (if Sells(leaves[0], ware) then leaves[0].count else 0) + Matching(leaves[1..], ware)
  }

  /** No matching stack is so large that the counter could wrap before enough is found. */
  predicate CannotWrap(leaves: seq<StockItem>, ware: int, enough: nat) {
    forall i :: 0 <= i < |leaves| && Sells(leaves[i], ware) ==> leaves[i].count + enough <= WRAP
  }

  /** What was picked is really there, was offered for sale, and reaches the amount even when the counter wraps. */
  lemma {:induction false} PickIsEnough(leaves: seq<StockItem>, ware: int, enough: nat, picked: seq<StockItem>,
                                        count: nat)
    requires Pick(leaves, ware, enough, picked, count).Some? && count <= Units(picked)
    ensures var list := Pick(leaves, ware, enough, picked, count).value;
      && multiset(list) <= multiset(picked) + multiset(leaves) && Units(list) >= enough && |list| > |picked|
      && (forall t :: t in list ==> t in picked || Sells(t, ware))
    decreases |leaves|
  {
    assert leaves == [leaves[0]] + leaves[1..];
    if !Sells(leaves[0], ware) {
      PickIsEnough(leaves[1..], ware, enough, picked, count);
    } else {
      var picked', count' := [leaves[0]] + picked, U16(count + leaves[0].count);
      assert picked'[1..] == picked;
      if count' < enough {
        PickIsEnough(leaves[1..], ware, enough, picked', count');
      }
    }
  }

  /** While the counter cannot wrap, the search succeeds exactly when there is enough. */
  lemma {:induction false} PickFindsEnough(leaves: seq<StockItem>, ware: int, enough: nat, picked: seq<StockItem>,
                                           count: nat)
    requires CannotWrap(leaves, ware, enough) && count < enough
    ensures Pick(leaves, ware, enough, picked, count).Some? <==> count + Matching(leaves, ware) >= enough
    decreases |leaves|
  {
    if leaves != [] {
      assert forall i :: 0 <= i < |leaves[1..]| ==> leaves[1..][i] == leaves[i + 1];
      if !Sells(leaves[0], ware) {
        PickFindsEnough(leaves[1..], ware, enough, picked, count);
      } else if count + leaves[0].count < enough {
        PickFindsEnough(leaves[1..], ware, enough, [leaves[0]] + picked, count + leaves[0].count);
      }
    }
  }

  function Ones(n: nat, ware: int): seq<StockItem> {
    if n == 0 then [] else [StockItem(n, ware, 1, true, false, [])] + Ones(n - 1, ware)
  }

  /** One unit too much: enough single units and a stack of 65537 - enough, and nothing is found. */
  lemma {:induction false} PickMayMiss(n: nat, ware: int, enough: nat, picked: seq<StockItem>, count: nat,
                                       last: StockItem)
    requires count + n + 1 == enough <= WRAP && last.count == WRAP + 1 - enough && Sells(last, ware)
    ensures Pick(Ones(n, ware) + [last], ware, enough, picked, count) == None
    ensures Matching(Ones(n, ware) + [last], ware) == n + last.count
    decreases n
  {
    var leaves := Ones(n, ware) + [last];
    if n == 0 {
      assert leaves == [last] && leaves[1..] == [];
      assert U16(count + last.count) == 0;
    } else {
      var one, rest := StockItem(n, ware, 1, true, false, []), Ones(n - 1, ware) + [last];
      assert leaves == [one] + rest && leaves[1..] == rest;
      PickMayMiss(n - 1, ware, enough, [one] + picked, count + 1, last);
    }
  }

  ghost predicate StacksUpTo(leaves: seq<StockItem>, max: nat) {
    forall i :: 0 <= i < |leaves| ==> 1 <= leaves[i].count <= max
  }

  ghost predicate Finds(leaves: seq<StockItem>, ware: int, enough: nat) {
    Pick(leaves, ware, enough, [], 0).Some? <==> Matching(leaves, ware) >= enough
  }

  /** The search is right for every stock of stacks up to `max` if and only if max + enough <= 65536. */
  lemma {:induction false} ExactStackLimit(ware: int, enough: nat, max: nat)
    requires 1 <= enough < WRAP && max >= 1
    ensures (forall leaves {:trigger StacksUpTo(leaves, max)} ::
      StacksUpTo(leaves, max) ==> Finds(leaves, ware, enough))
       <==> max + enough <= WRAP
  {
    if max + enough <= WRAP {
      forall leaves | StacksUpTo(leaves, max) ensures Finds(leaves, ware, enough) {
        PickFindsEnough(leaves, ware, enough, [], 0);
      }
    } else {
      var last := StockItem(0, ware, WRAP + 1 - enough, true, false, []);
      var leaves := Ones(enough - 1, ware) + [last];
      PickMayMiss(enough - 1, ware, enough, [], 0, last);
      OnesAreSmall(enough - 1, ware);
      assert StacksUpTo(leaves, max) && !Finds(leaves, ware, enough);
    }
  }

  lemma {:induction false} OnesAreSmall(n: nat, ware: int)
    ensures forall i :: 0 <= i < |Ones(n, ware)| ==> Ones(n, ware)[i].count == 1
  {
    if n > 0 {
      OnesAreSmall(n - 1, ware);
    }
  }

  ghost predicate AtMostOnes(leaves: seq<StockItem>, ware: int) {
    forall i {:trigger leaves[i]} :: 0 <= i < |leaves| && Sells(leaves[i], ware) ==> leaves[i].count <= 1
  }

  /** With single units the search stops at exactly the amount. */
  lemma {:induction false} PickSingles(leaves: seq<StockItem>, ware: int, enough: nat, picked: seq<StockItem>,
                                       count: nat)
    requires AtMostOnes(leaves, ware) && count == Units(picked) < enough < WRAP
    requires Pick(leaves, ware, enough, picked, count).Some?
    ensures Units(Pick(leaves, ware, enough, picked, count).value) == enough
    decreases |leaves|
  {
    assert forall i :: 0 <= i < |leaves[1..]| ==> leaves[1..][i] == leaves[i + 1];
    if !Sells(leaves[0], ware) {
      PickSingles(leaves[1..], ware, enough, picked, count);
    } else {
      var picked' := [leaves[0]] + picked;
      assert picked'[1..] == picked;
      if count + leaves[0].count < enough {
        PickSingles(leaves[1..], ware, enough, picked', count + leaves[0].count);
      }
    }
  }

  // ---------- whole items for an amount ----------

  /** Of a ware that does not stack, everything that is found goes: if anything is, is it the amount? */
  ghost predicate TakesExactly(leaves: seq<StockItem>, ware: int, enough: nat, picked: seq<StockItem>, count: nat) {
    var found := Pick(leaves, ware, enough, picked, count);
    found.Some? ==> Units(found.value) == enough
  }

  /** For every amount above `high`, what is found is the amount. */
  ghost predicate Fair(leaves: seq<StockItem>, ware: int, picked: seq<StockItem>, count: nat, high: nat) {
    forall enough: nat {:trigger TakesExactly(leaves, ware, enough, picked, count)} ::
      enough > high ==> TakesExactly(leaves, ware, enough, picked, count)
  }

  /** Whenever the 16-bit counter gets past its highest value so far, it does so by one, and has never wrapped. */
  predicate CountsByOne(leaves: seq<StockItem>, ware: int, total: nat, count: nat, high: nat)
    decreases |leaves|
  {
    if leaves == [] then true
    else if !Sells(leaves[0], ware) then CountsByOne(leaves[1..], ware, total, count, high)
    else
      var total', count' := total + leaves[0].count, U16(count + leaves[0].count);
      if count' <= high then CountsByOne(leaves[1..], ware, total', count', high)
      else count' == high + 1 && total' == count' && CountsByOne(leaves[1..], ware, total', count', count')
  }

  /** The amounts up to the counter's new value are met here, the larger ones by the rest of the search. */
  lemma FairStep(x: StockItem, rest: seq<StockItem>, ware: int, picked: seq<StockItem>, count: nat, high: nat,
                 count': nat)
    requires Sells(x, ware) && count <= high < count' && count' == U16(count + x.count)
    ensures Fair([x] + rest, ware, picked, count, high) <==>
      count' == high + 1 && Units([x] + picked) == count' && Fair(rest, ware, [x] + picked, count', count')
  {
    var leaves, picked' := [x] + rest, [x] + picked;
    forall enough: nat ensures TakesExactly(leaves, ware, enough, picked, count) ==
      if enough <= count' then Units(picked') == enough else TakesExactly(rest, ware, enough, picked', count')
    {
      PickFirst(x, rest, ware, enough, picked, count);
    }
    if Fair(leaves, ware, picked, count, high) {
      assert TakesExactly(leaves, ware, high + 1, picked, count) && TakesExactly(leaves, ware, count', picked, count);
      forall enough: nat | enough > count' ensures TakesExactly(rest, ware, enough, picked', count') {
        assert TakesExactly(leaves, ware, enough, picked, count);
      }
    }
  }

  lemma FairSkip(x: StockItem, rest: seq<StockItem>, ware: int, picked: seq<StockItem>, count: nat, high: nat,
                 picked': seq<StockItem>, count': nat)
    requires if Sells(x, ware) then picked' == [x] + picked && count' == U16(count + x.count)
             else picked' == picked && count' == count
    requires count <= high && count' <= high
    ensures Fair([x] + rest, ware, picked, count, high) <==> Fair(rest, ware, picked', count', high)
  {
    forall enough: nat | enough > high
      ensures TakesExactly([x] + rest, ware, enough, picked, count) == TakesExactly(rest, ware, enough, picked', count')
    {
      PickFirst(x, rest, ware, enough, picked, count);
    }
  }

  /**
   * Of a ware that does not stack exactly the amount goes, for every amount, if and only if the counter counts by
   * one.
   */
  lemma {:induction false} FairExactly(leaves: seq<StockItem>, ware: int, picked: seq<StockItem>, count: nat, high: nat)
    requires count <= high
    ensures Fair(leaves, ware, picked, count, high) <==> CountsByOne(leaves, ware, Units(picked), count, high)
    decreases |leaves|
  {
    if leaves == [] {
      forall enough: nat ensures TakesExactly(leaves, ware, enough, picked, count) {
      }
    } else {
      var x, rest := leaves[0], leaves[1..];
      assert leaves == [x] + rest && ([x] + picked)[1..] == picked;
      var count' := U16(count + x.count);
      if !Sells(x, ware) {
        FairSkip(x, rest, ware, picked, count, high, picked, count);
        FairExactly(rest, ware, picked, count, high);
      } else if count' <= high {
        FairSkip(x, rest, ware, picked, count, high, [x] + picked, count');
        FairExactly(rest, ware, [x] + picked, count', high);
      } else {
        FairStep(x, rest, ware, picked, count, high, count');
        FairExactly(rest, ware, [x] + picked, count', count');
      }
    }
  }

  /** In a stock that cannot make the counter wrap, that means that no item for sale counts more than one. */
  lemma {:induction false} CountsByOnes(leaves: seq<StockItem>, ware: int, count: nat)
    requires count + Matching(leaves, ware) < WRAP
    ensures CountsByOne(leaves, ware, count, count, count) <==> AtMostOnes(leaves, ware)
    decreases |leaves|
  {
    if leaves != [] {
      var x, rest := leaves[0], leaves[1..];
      assert forall i :: 0 <= i < |rest| ==> rest[i] == leaves[i + 1];
      assert AtMostOnes(leaves, ware) <==> (Sells(x, ware) ==> x.count <= 1) && AtMostOnes(rest, ware) by {
        if (Sells(x, ware) ==> x.count <= 1) && AtMostOnes(rest, ware) {
          forall i | 0 <= i < |leaves| && Sells(leaves[i], ware) ensures leaves[i].count <= 1 {
            assert i > 0 ==> leaves[i] == rest[i - 1];
          }
        }
      }
      CountsByOnes(rest, ware, count + if Sells(x, ware) then x.count else 0);
    }
  }

  /** Such a stock is fair to every amount if and only if no item for sale counts more than one. */
  lemma FairIfOnes(leaves: seq<StockItem>, ware: int)
    requires Matching(leaves, ware) < WRAP
    ensures Fair(leaves, ware, [], 0, 0) <==> AtMostOnes(leaves, ware)
  {
    FairExactly(leaves, ware, [], 0, 0);
    CountsByOnes(leaves, ware, 0);
  }

  /** One item of five charges in the depot, and three are sold: the item goes, and with it all five. */
  lemma ChargesLost(x: StockItem, ware: int)
    requires x.count == 5 && Sells(x, ware) && x.items == []
    ensures Pick(Stock([x], []), ware, 3, [], 0) == Some([x])
    ensures Goods([x], ware) == 5 && Goods(Take([x], x.id, x.count), ware) == 0
  {
    var none: seq<StockItem>, rest: seq<seq<StockItem>> := [], [[]];
    assert [x][1..] == none && [x] + none == [x] && Here([x]) == [x] && Here(none) == none;
    assert Boxes(none) == [] && Boxes([x]) == [] + Boxes([x][1..]) == [];
    assert [[x], none][1..] == rest && rest + [] == rest && rest[1..] == [];
    assert rest[1..] + Boxes(none) == [] && Bfs(rest) == none;
    assert Stock([x], none) == [x];
  }

  // ---------- the breadth-first order ----------

  /** The leaves at the top of a container. */
  function Here(ts: seq<StockItem>): seq<StockItem> {
    if ts == [] then [] else (if IsBox(ts[0]) then [] else [ts[0]]) + Here(ts[1..])
  }

  /** The filled containers at the top of a container. */
  function Boxes(ts: seq<StockItem>): seq<seq<StockItem>> {
    if ts == [] then [] else (if IsBox(ts[0]) then [ts[0].items] else []) + Boxes(ts[1..])
  }

  function Size(ts: seq<StockItem>): nat { if ts == [] then 0 else 1 + Size(ts[0].items) + Size(ts[1..]) }

  function QueueSize(q: seq<seq<StockItem>>): nat { if q == [] then 0 else 1 + Size(q[0]) + QueueSize(q[1..]) }

  lemma {:induction false} QueueConcat(q: seq<seq<StockItem>>, r: seq<seq<StockItem>>)
    ensures QueueSize(q + r) == QueueSize(q) + QueueSize(r)
  {
    if q == [] {
      assert q + r == r;
    } else {
      assert (q + r)[1..] == q[1..] + r;
      QueueConcat(q[1..], r);
    }
  }

  lemma {:induction false} BoxesFit(ts: seq<StockItem>)
    ensures QueueSize(Boxes(ts)) <= Size(ts)
  {
    if ts != [] {
      BoxesFit(ts[1..]);
      var first := if IsBox(ts[0]) then [ts[0].items] else [];
      QueueConcat(first, Boxes(ts[1..]));
      assert first != [] ==> QueueSize(first) == 1 + Size(ts[0].items) + QueueSize(first[1..]);
    }
  }

  function Bfs(q: seq<seq<StockItem>>): seq<StockItem>
    decreases QueueSize(q)
  {
    if q == [] then []
    else
      QueueConcat(q[1..], Boxes(q[0]));
      BoxesFit(q[0]);
      Here(q[0]) + Bfs(q[1..] + Boxes(q[0]))
  }

  function AllLeaves(q: seq<seq<StockItem>>): multiset<StockItem> {
    if q == [] then multiset{} else Leaves(q[0]) + AllLeaves(q[1..])
  }

  lemma {:induction false} AllLeavesConcat(q: seq<seq<StockItem>>, r: seq<seq<StockItem>>)
    ensures AllLeaves(q + r) == AllLeaves(q) + AllLeaves(r)
  {
    if q == [] {
      assert q + r == r;
    } else {
      assert (q + r)[1..] == q[1..] + r;
      AllLeavesConcat(q[1..], r);
    }
  }

  lemma {:induction false} LeavesSplit(ts: seq<StockItem>)
    ensures Leaves(ts) == multiset(Here(ts)) + AllLeaves(Boxes(ts))
  {
    if ts != [] {
      LeavesSplit(ts[1..]);
      var first := if IsBox(ts[0]) then [ts[0].items] else [];
      AllLeavesConcat(first, Boxes(ts[1..]));
      assert first != [] ==> first[1..] == [];
    }
  }

  /** The search meets every leaf of every depth once. */
  lemma {:induction false} BfsMeetsAll(q: seq<seq<StockItem>>)
    ensures multiset(Bfs(q)) == AllLeaves(q)
    decreases QueueSize(q)
  {
    if q != [] {
      QueueConcat(q[1..], Boxes(q[0]));
      BoxesFit(q[0]);
      BfsMeetsAll(q[1..] + Boxes(q[0]));
      AllLeavesConcat(q[1..], Boxes(q[0]));
      LeavesSplit(q[0]);
    }
  }

  function Stock(depot: seq<StockItem>, inbox: seq<StockItem>): seq<StockItem> { Bfs([depot, inbox]) }

  /** The units of a ware that can be sold, at any depth. */
  function ForSale(ts: seq<StockItem>, ware: int): nat {
    if ts == [] then 0
    else (if IsBox(ts[0]) then ForSale(ts[0].items, ware) else if Sells(ts[0], ware) then ts[0].count else 0)
         + ForSale(ts[1..], ware)
  }

  function AllForSale(q: seq<seq<StockItem>>, ware: int): nat {
    if q == [] then 0 else ForSale(q[0], ware) + AllForSale(q[1..], ware)
  }

  lemma {:induction false} ForSaleConcat(ts: seq<StockItem>, us: seq<StockItem>, ware: int)
    ensures ForSale(ts + us, ware) == ForSale(ts, ware) + ForSale(us, ware)
  {
    if ts == [] {
      assert ts + us == us;
    } else {
      assert (ts + us)[1..] == ts[1..] + us;
      ForSaleConcat(ts[1..], us, ware);
    }
  }

  lemma {:induction false} AllForSaleConcat(q: seq<seq<StockItem>>, r: seq<seq<StockItem>>, ware: int)
    ensures AllForSale(q + r, ware) == AllForSale(q, ware) + AllForSale(r, ware)
  {
    if q == [] {
      assert q + r == r;
    } else {
      assert (q + r)[1..] == q[1..] + r;
      AllForSaleConcat(q[1..], r, ware);
    }
  }

  lemma {:induction false} MatchingConcat(s: seq<StockItem>, t: seq<StockItem>, ware: int)
    ensures Matching(s + t, ware) == Matching(s, ware) + Matching(t, ware)
  {
    if s == [] {
      assert s + t == t;
    } else {
      assert (s + t)[1..] == s[1..] + t;
      MatchingConcat(s[1..], t, ware);
    }
  }

  lemma {:induction false} ForSaleSplit(ts: seq<StockItem>, ware: int)
    ensures ForSale(ts, ware) == Matching(Here(ts), ware) + AllForSale(Boxes(ts), ware)
  {
    if ts != [] {
      ForSaleSplit(ts[1..], ware);
      var first, here := if IsBox(ts[0]) then [ts[0].items] else [], if IsBox(ts[0]) then [] else [ts[0]];
      AllForSaleConcat(first, Boxes(ts[1..]), ware);
      MatchingConcat(here, Here(ts[1..]), ware);
      assert first != [] ==> first[1..] == [];
      assert here != [] ==> here[1..] == [];
    }
  }

  lemma {:induction false} BfsForSale(q: seq<seq<StockItem>>, ware: int)
    ensures Matching(Bfs(q), ware) == AllForSale(q, ware)
    decreases QueueSize(q)
  {
    if q != [] {
      QueueConcat(q[1..], Boxes(q[0]));
      BoxesFit(q[0]);
      BfsForSale(q[1..] + Boxes(q[0]), ware);
      AllForSaleConcat(q[1..], Boxes(q[0]), ware);
      ForSaleSplit(q[0], ware);
      MatchingConcat(Here(q[0]), Bfs(q[1..] + Boxes(q[0])), ware);
    }
  }

  /** What the search can find is what both places have for sale. */
  lemma StockForSale(depot: seq<StockItem>, inbox: seq<StockItem>, ware: int)
    ensures Matching(Stock(depot, inbox), ware) == ForSale(depot, ware) + ForSale(inbox, ware)
  {
    BfsForSale([depot, inbox], ware);
    assert [depot, inbox][1..] == [inbox];
    assert AllForSale([inbox], ware) == ForSale(inbox, ware) + AllForSale([inbox][1..], ware);
  }

  lemma StockIsAll(depot: seq<StockItem>, inbox: seq<StockItem>)
    ensures multiset(Stock(depot, inbox)) == Leaves(depot + inbox)
  {
    BfsMeetsAll([depot, inbox]);
    assert [depot, inbox][1..] == [inbox];
    assert AllLeaves([inbox]) == Leaves(inbox) + AllLeaves([inbox][1..]);
    LeavesConcat(depot, inbox);
  }

  lemma PickFirst(x: StockItem, leaves: seq<StockItem>, ware: int, enough: nat, picked: seq<StockItem>, count: nat)
    ensures Pick([x] + leaves, ware, enough, picked, count) ==
      if !Sells(x, ware) then Pick(leaves, ware, enough, picked, count)
      else if U16(count + x.count) >= enough then Some([x] + picked)
      else Pick(leaves, ware, enough, [x] + picked, U16(count + x.count))
  {
    assert ([x] + leaves)[0] == x && ([x] + leaves)[1..] == leaves;
  }

  lemma ScanStep(container: seq<StockItem>, i: nat, item: StockItem)
    requires i < |container| && container[i] == item
    ensures Here(container[i..]) == (if IsBox(item) then [] else [item]) + Here(container[i + 1..])
    ensures Boxes(container[i..]) == (if IsBox(item) then [item.items] else []) + Boxes(container[i + 1..])
  {
    assert container[i..][0] == item && container[i..][1..] == container[i + 1..];
  }

  /** What is still to be searched while item i of a container is looked at. */
  ghost predicate Searching(container: seq<StockItem>, i: nat, later: seq<StockItem>, rest: seq<seq<StockItem>>,
                            todo: seq<StockItem>, containers: seq<seq<StockItem>>) {
    i <= |container| && todo == Here(container[i..]) + later && containers + Boxes(container[i..]) == rest
  }

  lemma Searched(container: seq<StockItem>, i: nat, item: StockItem, later: seq<StockItem>, rest: seq<seq<StockItem>>,
                 todo: seq<StockItem>, containers: seq<seq<StockItem>>)
    returns (todo': seq<StockItem>, containers': seq<seq<StockItem>>)
    requires Searching(container, i, later, rest, todo, containers) && i < |container| && container[i] == item
    ensures Searching(container, i + 1, later, rest, todo', containers')
    ensures todo == if IsBox(item) then todo' else [item] + todo'
    ensures containers' == if IsBox(item) then containers + [item.items] else containers
  {
    ScanStep(container, i, item);
    todo' := Here(container[i + 1..]) + later;
    containers' := if IsBox(item) then containers + [item.items] else containers;
    if !IsBox(item) {
      assert todo == [item] + todo';
    }
  }

  /** The inner loop of the search, over one container: filled containers are queued, the rest is looked at. */
  method Scan(container: seq<StockItem>, queue: seq<seq<StockItem>>, ware: int, enough: nat,
              itemList0: seq<StockItem>, count0: nat)
    returns (done: bool, itemList: seq<StockItem>, count: nat, containers: seq<seq<StockItem>>)
    requires count0 < enough
    ensures var found := Pick(Here(container) + Bfs(queue + Boxes(container)), ware, enough, itemList0, count0);
      if done then itemList != [] && found == Some(itemList)
      else found == Pick(Bfs(containers), ware, enough, itemList, count)
    ensures !done ==> containers == queue + Boxes(container) && count < enough
  {
    done, itemList, count, containers := false, itemList0, count0, queue;
    ghost var rest := queue + Boxes(container);
    ghost var later := Bfs(rest);
    ghost var todo := Here(container) + later;
    ghost var found := Pick(todo, ware, enough, itemList0, count0);
    var i := 0;
    assert container[0..] == container;
    while i < |container|
      invariant 0 <= i <= |container| && count < enough
      invariant Searching(container, i, later, rest, todo, containers)
      invariant Pick(todo, ware, enough, itemList, count) == found
    {
      var item := container[i];
      ghost var todo', containers' := Searched(container, i, item, later, rest, todo, containers);
      if IsBox(item) {
        containers := containers + [item.items];
      } else {
        PickFirst(item, todo', ware, enough, itemList, count);
        if Sells(item, ware) {
          itemList := [item] + itemList;
          count := U16(count + item.count);
          if count >= enough {
            done := true;
            return;
          }
        }
      }
      todo := todo';
      i := i + 1;
    }
    assert [] + later == later && containers + [] == containers;
  }

  /** `getMarketItemList`, an empty list standing for failure. */
  method GetMarketItemList(ware: int, sufficientCount: nat, depot: seq<StockItem>, inbox: seq<StockItem>)
    returns (itemList: seq<StockItem>)
    requires sufficientCount > 0
    ensures (if itemList == [] then None else Some(itemList)) == Pick(Stock(depot, inbox), ware, sufficientCount, [], 0)
  {
    itemList := [];
    var count: nat := 0;
    var containers := [depot, inbox];
    while containers != []
      invariant count < sufficientCount
      invariant Pick(Bfs(containers), ware, sufficientCount, itemList, count) ==
                Pick(Stock(depot, inbox), ware, sufficientCount, [], 0)
      decreases QueueSize(containers)
    {
      QueueConcat(containers[1..], Boxes(containers[0]));
      BoxesFit(containers[0]);
      var done;
      done, itemList, count, containers := Scan(containers[0], containers[1..], ware, sufficientCount, itemList, count);
      if done {
        return;
      }
    }
    return [];
  }

  // ---------- taking units out of a forest ----------

  /** What is left of an item when n units of the one with this id are taken; an item without units is gone. */
  function TakeOne(t: StockItem, id: int, n: nat): seq<StockItem>
    decreases t, 1
  {
    if t.id == id then if n >= t.count then [] else [t.(count := t.count - n)]
    else [t.(items := Take(t.items, id, n))]
  }

  function Take(ts: seq<StockItem>, id: int, n: nat): seq<StockItem>
    decreases ts, 0
  {
    if ts == [] then [] else TakeOne(ts[0], id, n) + Take(ts[1..], id, n)
  }

  lemma {:induction false} TakeConcat(ts: seq<StockItem>, us: seq<StockItem>, id: int, n: nat)
    ensures Take(ts + us, id, n) == Take(ts, id, n) + Take(us, id, n)
  {
    if ts == [] {
      assert ts + us == us;
    } else {
      assert (ts + us)[1..] == ts[1..] + us;
      TakeConcat(ts[1..], us, id, n);
    }
  }

  lemma {:induction false} TakeAbsent(ts: seq<StockItem>, id: int, n: nat)
    requires Times(ts, id) == 0
    ensures Take(ts, id, n) == ts
  {
    if ts != [] {
      TakeAbsent(ts[0].items, id, n);
      TakeAbsent(ts[1..], id, n);
      assert ts == [ts[0]] + ts[1..];
    }
  }

  lemma {:induction false} LeafHasId(ts: seq<StockItem>, leaf: StockItem)
    requires leaf in Leaves(ts)
    ensures Times(ts, leaf.id) >= 1
  {
    if IsBox(ts[0]) && leaf in Leaves(ts[0].items) {
      LeafHasId(ts[0].items, leaf);
    } else if leaf in Leaves(ts[1..]) {
      LeafHasId(ts[1..], leaf);
    }
  }

  function Own(t: StockItem, ware: int): nat { if t.ware == ware then t.count else 0 }

  lemma GoodsOne(t: StockItem, ware: int)
    ensures Goods([t], ware) == Own(t, ware) + Goods(t.items, ware)
  {
    assert [t][1..] == [];
  }

  lemma GoodsTaken(ts: seq<StockItem>, id: int, n: nat, ware: int)
    requires ts != []
    ensures Goods(Take(ts, id, n), ware) == Goods(TakeOne(ts[0], id, n), ware) + Goods(Take(ts[1..], id, n), ware)
  {
    GoodsConcat(TakeOne(ts[0], id, n), Take(ts[1..], id, n), ware);
  }

  /** Taking n units of a leaf lowers the goods of its ware by n and leaves every other ware alone. */
  lemma {:induction false} TakeGoods(ts: seq<StockItem>, leaf: StockItem, n: nat, ware: int)
    requires leaf in Leaves(ts) && leaf.items == [] && n <= leaf.count && Times(ts, leaf.id) <= 1
    ensures Goods(Take(ts, leaf.id, n), ware) + (if leaf.ware == ware then n else 0) == Goods(ts, ware)
  {
    var t, rest := ts[0], ts[1..];
    GoodsTaken(ts, leaf.id, n, ware);
    if leaf in Leaves(rest) {
      LeafHasId(rest, leaf);
      TakeAbsent(t.items, leaf.id, n);
      assert t.(items := t.items) == t;
      GoodsOne(t, ware);
      TakeGoods(rest, leaf, n, ware);
    } else {
      TakeGoodsFirst(t, leaf, n, ware, rest);
    }
  }

  lemma {:induction false} TakeGoodsFirst(t: StockItem, leaf: StockItem, n: nat, ware: int, rest: seq<StockItem>)
    requires (if IsBox(t) then leaf in Leaves(t.items) else leaf == t) && leaf.items == [] && n <= leaf.count
    requires Times(t.items, leaf.id) + Times(rest, leaf.id) + (if t.id == leaf.id then 1 else 0) <= 1
    ensures Take(rest, leaf.id, n) == rest
    ensures Goods(TakeOne(t, leaf.id, n), ware) + (if leaf.ware == ware then n else 0) ==
      Own(t, ware) + Goods(t.items, ware)
    decreases t
  {
    if IsBox(t) {
      LeafHasId(t.items, leaf);
      TakeAbsent(rest, leaf.id, n);
      TakeGoods(t.items, leaf, n, ware);
      GoodsOne(t.(items := Take(t.items, leaf.id, n)), ware);
    } else {
      TakeAbsent(rest, leaf.id, n);
      GoodsOne(t.(count := t.count - n), ware);
    }
  }

  lemma TimesOne(t: StockItem, id: int)
    ensures Times([t], id) == (if t.id == id then 1 else 0) + Times(t.items, id)
  {
    assert [t][1..] == [];
  }

  lemma {:induction false} TakeTimes(ts: seq<StockItem>, id: int, n: nat, other: int)
    ensures Times(Take(ts, id, n), other) <= Times(ts, other)
  {
    if ts != [] {
      TakeTimes(ts[0].items, id, n, other);
      TakeTimes(ts[1..], id, n, other);
      TimesConcat(TakeOne(ts[0], id, n), Take(ts[1..], id, n), other);
      TimesOne(ts[0].(items := Take(ts[0].items, id, n)), other);
      if n < ts[0].count {
        TimesOne(ts[0].(count := ts[0].count - n), other);
      }
    }
  }

  /** Another leaf stays where it is. */
  lemma {:induction false} TakeKeepsLeaf(ts: seq<StockItem>, id: int, n: nat, other: StockItem)
    requires other in Leaves(ts) && other.id != id && other.items == []
    requires NoHolder(ts, id)
    ensures other in Leaves(Take(ts, id, n))
  {
    var t, rest := ts[0], ts[1..];
    var first := TakeOne(t, id, n);
    LeavesConcat(first, Take(rest, id, n));
    if other in Leaves(rest) {
      TakeKeepsLeaf(rest, id, n, other);
    } else if IsBox(t) {
      TakeKeepsLeaf(t.items, id, n, other);
      assert first == [t.(items := Take(t.items, id, n))] && first[0].items != [];
      assert first[1..] == [];
    } else {
      assert t == other && Take([], id, n) == [];
      assert first == [t] && first[1..] == [];
    }
  }

  // ---------- sound forests ----------

  /** Only containers hold items, counts fit 16 bits, and the items of single wares count at most one. */
  ghost predicate Sound(wares: Wares, ts: seq<StockItem>) {
    ts == [] ||
    (SoundOne(wares, ts[0]) && Sound(wares, ts[0].items) && Sound(wares, ts[1..]))
  }

  ghost predicate SoundOne(wares: Wares, t: StockItem) {
    (t.container || t.items == []) && t.count < WRAP && (wares(t.ware).single ==> t.count <= 1)
  }

  lemma {:induction false} SoundConcat(wares: Wares, ts: seq<StockItem>, us: seq<StockItem>)
    ensures Sound(wares, ts + us) <==> Sound(wares, ts) && Sound(wares, us)
  {
    if ts == [] {
      assert ts + us == us;
    } else {
      assert (ts + us)[1..] == ts[1..] + us;
      SoundConcat(wares, ts[1..], us);
    }
  }

  lemma {:induction false} TakeSound(wares: Wares, ts: seq<StockItem>, id: int, n: nat)
    requires Sound(wares, ts) && n > 0
    ensures Sound(wares, Take(ts, id, n))
  {
    if ts != [] {
      TakeSound(wares, ts[0].items, id, n);
      TakeSound(wares, ts[1..], id, n);
      var first := TakeOne(ts[0], id, n);
      SoundConcat(wares, first, Take(ts[1..], id, n));
      assert first != [] ==> first[1..] == [];
    }
  }

  lemma {:induction false} SoundLeaf(wares: Wares, ts: seq<StockItem>, leaf: StockItem)
    requires Sound(wares, ts) && leaf in Leaves(ts)
    ensures SoundOne(wares, leaf) && leaf.items == []
  {
    if leaf in Leaves(ts[1..]) {
      SoundLeaf(wares, ts[1..], leaf);
    } else if IsBox(ts[0]) {
      SoundLeaf(wares, ts[0].items, leaf);
    }
  }

  // ---------- leaves and their ids ----------

  lemma {:induction false} LeavesAtMost(ts: seq<StockItem>, leaf: StockItem)
    ensures Leaves(ts)[leaf] <= Times(ts, leaf.id)
  {
    if ts != [] {
      LeavesAtMost(ts[0].items, leaf);
      LeavesAtMost(ts[1..], leaf);
    }
  }

  lemma {:induction false} TwoLeaves(ts: seq<StockItem>, leaf: StockItem, other: StockItem)
    requires leaf != other && leaf.id == other.id
    ensures Leaves(ts)[leaf] + Leaves(ts)[other] <= Times(ts, leaf.id)
  {
    if ts != [] {
      TwoLeaves(ts[0].items, leaf, other);
      TwoLeaves(ts[1..], leaf, other);
    }
  }

  ghost predicate DifferentIds(list: seq<StockItem>) {
    forall i, j {:trigger Differ(list[i], list[j])} :: 0 <= i < j < |list| ==> Differ(list[i], list[j])
  }

  ghost predicate Differ(x: StockItem, y: StockItem) { x.id != y.id }

  /** Leaves picked from a forest of distinct items are distinct. */
  lemma PickedDiffer(ts: seq<StockItem>, list: seq<StockItem>)
    requires Distinct(ts) && multiset(list) <= Leaves(ts)
    ensures DifferentIds(list)
  {
    forall i, j | 0 <= i < j < |list| ensures Differ(list[i], list[j]) {
      if list[i].id == list[j].id {
        var x, y := list[i], list[j];
        assert Times(ts, x.id) <= 1;
        if x == y {
          LeavesAtMost(ts, x);
          TwoPlaces(list, i, j);
        } else {
          TwoLeaves(ts, x, y);
        }
      }
    }
  }

  lemma TwoPlaces(list: seq<StockItem>, i: nat, j: nat)
    requires i < j < |list| && list[i] == list[j]
    ensures multiset(list)[list[i]] >= 2
  {
    assert list == list[..i] + [list[i]] + list[i + 1..j] + [list[j]] + list[j + 1..];
  }

  /** A leaf without items is the only item with its id, so no holder has that id. */
  lemma {:induction false} LeafIsAlone(ts: seq<StockItem>, leaf: StockItem)
    requires leaf in Leaves(ts) && leaf.items == [] && Times(ts, leaf.id) <= 1
    ensures NoHolder(ts, leaf.id)
  {
    var t, rest := ts[0], ts[1..];
    if leaf in Leaves(rest) {
      LeafHasId(rest, leaf);
      AbsentNoHolder(t.items, leaf.id);
      LeafIsAlone(rest, leaf);
    } else {
      if IsBox(t) {
        LeafHasId(t.items, leaf);
        LeafIsAlone(t.items, leaf);
      } else {
        AbsentNoHolder(t.items, leaf.id);
      }
      AbsentNoHolder(rest, leaf.id);
    }
  }

  lemma {:induction false} AbsentNoHolder(ts: seq<StockItem>, id: int)
    requires Times(ts, id) == 0
    ensures NoHolder(ts, id)
  {
    if ts != [] {
      AbsentNoHolder(ts[0].items, id);
      AbsentNoHolder(ts[1..], id);
    }
  }

  /** The item with this id, if there is one, holds nothing. */
  ghost predicate NoHolder(ts: seq<StockItem>, id: int) {
    ts == [] || ((ts[0].id == id ==> ts[0].items == []) && NoHolder(ts[0].items, id) && NoHolder(ts[1..], id))
  }

  // ---------- removing what was picked ----------

  /** The part of the list from i on is still in the forest, and holds enough for the rest of the amount. */
  ghost predicate Waiting(ts: seq<StockItem>, list: seq<StockItem>, i: nat, ware: int, left: nat) {
    && i <= |list| && DifferentIds(list) && Units(list[i..]) >= left
    && (forall j {:trigger Waits(ts, list[j], ware)} :: i <= j < |list| ==> Waits(ts, list[j], ware))
  }

  ghost predicate Waits(ts: seq<StockItem>, t: StockItem, ware: int) { t in Leaves(ts) && t.ware == ware }

  /** The forest has lost n units of one ware and nothing of any other. */
  ghost predicate Took(us: seq<StockItem>, ts: seq<StockItem>, ware: int, n: nat) {
    forall w {:trigger Goods(us, w)} :: Goods(us, w) + (if w == ware then n else 0) == Goods(ts, w)
  }

  /** No id occurs more often than before. */
  ghost predicate NotMore(us: seq<StockItem>, ts: seq<StockItem>) {
    forall id {:trigger Times(us, id)} :: Times(us, id) <= Times(ts, id)
  }

  lemma NotMoreTwice(vs: seq<StockItem>, us: seq<StockItem>, ts: seq<StockItem>)
    requires NotMore(us, ts) && NotMore(vs, us)
    ensures NotMore(vs, ts)
  {
    forall id {:trigger Times(vs, id)} ensures Times(vs, id) <= Times(ts, id) {
      assert Times(us, id) <= Times(ts, id);
    }
  }

  lemma TookTwice(vs: seq<StockItem>, us: seq<StockItem>, ts: seq<StockItem>, ware: int, m: nat, n: nat)
    requires Took(us, ts, ware, m) && Took(vs, us, ware, n)
    ensures Took(vs, ts, ware, m + n)
  {
    forall w {:trigger Goods(vs, w)} ensures Goods(vs, w) + (if w == ware then m + n else 0) == Goods(ts, w) {
      assert Goods(us, w) + (if w == ware then m else 0) == Goods(ts, w);
    }
  }

  /** `internalRemoveItem`: removing nothing is refused. */
  function Removed(ts: seq<StockItem>, id: int, n: nat): seq<StockItem> { if n == 0 then ts else Take(ts, id, n) }

  // ---------- what a removal leaves ----------

  /** What is left when each item loses the units that `taken` gives for its id; one that loses all of them is gone. */
  function Thinned(ts: seq<StockItem>, taken: map<int, nat>): seq<StockItem> {
    if ts == [] then []
    else
      var t, n := ts[0], if ts[0].id in taken then taken[ts[0].id] else 0;
      (if n > 0 && n >= t.count then [] else [t.(count := t.count - n, items := Thinned(t.items, taken))])
      + Thinned(ts[1..], taken)
  }

  /** What each item of a list gives towards an amount, from the first on. */
  function Shares(list: seq<StockItem>, amount: nat): map<int, nat> {
    if list == [] || amount == 0 then map[]
    else
      var n := if amount < list[0].count then amount else list[0].count;
      Shares(list[1..], amount - n)[list[0].id := n]
  }

  lemma {:induction false} ThinnedNone(ts: seq<StockItem>)
    ensures Thinned(ts, map[]) == ts
  {
    if ts != [] {
      ThinnedNone(ts[0].items);
      ThinnedNone(ts[1..]);
      assert ts == [ts[0].(count := ts[0].count, items := ts[0].items)] + ts[1..];
    }
  }

  /** Taking from one more item. */
  lemma {:induction false} ThinnedMore(ts: seq<StockItem>, taken: map<int, nat>, id: int, n: nat)
    requires id !in taken && NoHolder(ts, id)
    ensures Removed(Thinned(ts, taken), id, n) == Thinned(ts, taken[id := n])
  {
    if ts != [] {
      var t, rest := ts[0], ts[1..];
      ThinnedMore(t.items, taken, id, n);
      ThinnedMore(rest, taken, id, n);
      if n > 0 {
        var first := Thinned([t], taken);
        assert [t][1..] == [] && Thinned([], taken) == [] && Thinned([], taken[id := n]) == [];
        assert Thinned(ts, taken) == first + Thinned(rest, taken);
        TakeConcat(first, Thinned(rest, taken), id, n);
        if first != [] {
          assert first[1..] == [] && Take([], id, n) == [];
          assert Take(first, id, n) == TakeOne(first[0], id, n) + [];
        }
        assert Thinned(ts, taken[id := n]) == Thinned([t], taken[id := n]) + Thinned(rest, taken[id := n]);
      }
    }
  }

  lemma {:induction false} NoHolderConcat(ts: seq<StockItem>, us: seq<StockItem>, id: int)
    ensures NoHolder(ts + us, id) <==> NoHolder(ts, id) && NoHolder(us, id)
  {
    if ts == [] {
      assert ts + us == us;
    } else {
      assert (ts + us)[1..] == ts[1..] + us;
      NoHolderConcat(ts[1..], us, id);
    }
  }

  lemma {:induction false} SharesOf(list: seq<StockItem>, amount: nat, id: int)
    requires forall j :: 0 <= j < |list| ==> list[j].id != id
    ensures id !in Shares(list, amount)
  {
    if list != [] && amount > 0 {
      SharesOf(list[1..], amount - if amount < list[0].count then amount else list[0].count, id);
    }
  }

  /** The first i items of the list have given what they give; `taken` says what, and the rest will give the rest. */
  ghost predicate Contributed(ts: seq<StockItem>, us: seq<StockItem>, list: seq<StockItem>, i: nat, left: nat,
                        taken: map<int, nat>, total: map<int, nat>) {
    && i <= |list| && us == Thinned(ts, taken) && taken + Shares(list[i..], left) == total
    && (forall j {:trigger Untaken(list[j], taken)} :: i <= j < |list| ==> Untaken(list[j], taken))
  }

  ghost predicate Untaken(t: StockItem, taken: map<int, nat>) { t.id !in taken }

  lemma GiveOne(ts: seq<StockItem>, us: seq<StockItem>, list: seq<StockItem>, i: nat, left: nat,
                taken: map<int, nat>, total: map<int, nat>, n: nat)
    requires Contributed(ts, us, list, i, left, taken, total) && i < |list| && DifferentIds(list) && left > 0
    requires n == (if left < list[i].count then left else list[i].count) && NoHolder(ts, list[i].id)
    ensures Contributed(ts, Removed(us, list[i].id, n), list, i + 1, left - n, taken[list[i].id := n], total)
  {
    var id, rest := list[i].id, list[i + 1..];
    assert Untaken(list[i], taken);
    ThinnedMore(ts, taken, id, n);
    assert list[i..][0] == list[i] && list[i..][1..] == rest;
    forall j | 0 <= j < |rest| ensures rest[j].id != id {
      assert Differ(list[i], list[i + 1 + j]);
    }
    SharesOf(rest, left - n, id);
    forall j | i + 1 <= j < |list| ensures Untaken(list[j], taken[id := n]) {
      assert Untaken(list[j], taken) && Differ(list[i], list[j]);
    }
    assert taken[id := n] + Shares(rest, left - n) == taken + Shares(rest, left - n)[id := n];
  }

  /** Nothing has been given yet. */
  lemma ContributedNone(ts: seq<StockItem>, list: seq<StockItem>, left: nat)
    ensures Contributed(ts, ts, list, 0, left, map[], Shares(list, left))
  {
    ThinnedNone(ts);
    assert list[0..] == list && map[] + Shares(list, left) == Shares(list, left);
  }

  /** The items waiting in a list hold nothing, in either place. */
  lemma WaitingAlone(wares: Wares, depot: seq<StockItem>, inbox: seq<StockItem>, list: seq<StockItem>, ware: int,
                     left: nat, j: nat)
    requires Sound(wares, depot + inbox) && Distinct(depot + inbox) && Waiting(depot + inbox, list, 0, ware, left)
    requires j < |list|
    ensures NoHolder(depot, list[j].id) && NoHolder(inbox, list[j].id)
  {
    assert Waits(depot + inbox, list[j], ware);
    SoundLeaf(wares, depot + inbox, list[j]);
    assert Times(depot + inbox, list[j].id) <= 1;
    LeafIsAlone(depot + inbox, list[j]);
    NoHolderConcat(depot, inbox, list[j].id);
  }

  lemma RemoveOne(wares: Wares, ts: seq<StockItem>, list: seq<StockItem>, i: nat, ware: int, left: nat, n: nat,
                  us: seq<StockItem>)
    requires Sound(wares, ts) && Distinct(ts) && Waiting(ts, list, i, ware, left) && i < |list|
    requires n == (if left < list[i].count then left else list[i].count) && us == Removed(ts, list[i].id, n)
    ensures Sound(wares, us) && Distinct(us) && Waiting(us, list, i + 1, ware, left - n)
    ensures Took(us, ts, ware, n) && NotMore(us, ts)
  {
    var leaf := list[i];
    assert list[i..][1..] == list[i + 1..];
    if n == 0 {
      return;
    }
    assert Waits(ts, leaf, ware);
    SoundLeaf(wares, ts, leaf);
    assert Times(ts, leaf.id) <= 1;
    forall w {:trigger Goods(us, w)} ensures Goods(us, w) + (if w == ware then n else 0) == Goods(ts, w) {
      TakeGoods(ts, leaf, n, w);
    }
    TakeSound(wares, ts, leaf.id, n);
    forall id {:trigger Times(us, id)} ensures Times(us, id) <= 1 && Times(us, id) <= Times(ts, id) {
      TakeTimes(ts, leaf.id, n, id);
      assert Times(ts, id) <= 1;
    }
    LeafIsAlone(ts, leaf);
    forall j | i + 1 <= j < |list| ensures Waits(us, list[j], ware) {
      assert Waits(ts, list[j], ware) && Differ(list[i], list[j]);
      SoundLeaf(wares, ts, list[j]);
      TakeKeepsLeaf(ts, leaf.id, n, list[j]);
    }
  }

  /** The state of a removal: some units are taken, and the rest of the list waits for the rest of the amount. */
  ghost predicate Removing(wares: Wares, ts: seq<StockItem>, all: seq<StockItem>, list: seq<StockItem>, i: nat,
                           ware: int, taken: nat, left: nat) {
    && Sound(wares, ts) && Distinct(ts) && Waiting(ts, list, i, ware, left)
    && Took(ts, all, ware, taken) && NotMore(ts, all)
  }

  lemma RemoveStep(wares: Wares, depot: seq<StockItem>, inbox: seq<StockItem>, all: seq<StockItem>,
                   list: seq<StockItem>, i: nat, ware: int,
                   taken: nat, left: nat, n: nat, depot': seq<StockItem>, inbox': seq<StockItem>)
    requires Removing(wares, depot + inbox, all, list, i, ware, taken, left) && i < |list|
    requires n == if left < list[i].count then left else list[i].count
    requires depot' == Removed(depot, list[i].id, n) && inbox' == Removed(inbox, list[i].id, n)
    ensures n <= left && Removing(wares, depot' + inbox', all, list, i + 1, ware, taken + n, left - n)
  {
    TakeConcat(depot, inbox, list[i].id, n);
    RemoveOne(wares, depot + inbox, list, i, ware, left, n, depot' + inbox');
    TookTwice(depot' + inbox', depot + inbox, all, ware, taken, n);
    NotMoreTwice(depot' + inbox', depot + inbox, all);
  }

  lemma NothingTaken(wares: Wares, ts: seq<StockItem>, list: seq<StockItem>, ware: int, amount: nat)
    requires Sound(wares, ts) && Distinct(ts) && Waiting(ts, list, 0, ware, amount)
    ensures Removing(wares, ts, ts, list, 0, ware, 0, amount)
  {
  }

  /** The state of a removal: so much is taken, from the first items of the list on. */
  ghost predicate Collecting(wares: Wares, depot: seq<StockItem>, inbox: seq<StockItem>, list: seq<StockItem>,
                             ware: int, i: nat, d: seq<StockItem>, b: seq<StockItem>, taken: nat, total: nat,
                             given: map<int, nat>) {
    && taken <= total && Removing(wares, d + b, depot + inbox, list, i, ware, taken, total - taken)
    && Contributed(depot, d, list, i, total - taken, given, Shares(list, total))
    && Contributed(inbox, b, list, i, total - taken, given, Shares(list, total))
  }

  lemma CollectingNone(wares: Wares, depot: seq<StockItem>, inbox: seq<StockItem>, list: seq<StockItem>, ware: int,
                       total: nat)
    requires Sound(wares, depot + inbox) && Distinct(depot + inbox) && Waiting(depot + inbox, list, 0, ware, total)
    ensures Collecting(wares, depot, inbox, list, ware, 0, depot, inbox, 0, total, map[])
  {
    NothingTaken(wares, depot + inbox, list, ware, total);
    ContributedNone(depot, list, total);
    ContributedNone(inbox, list, total);
  }

  lemma CollectingDone(wares: Wares, depot: seq<StockItem>, inbox: seq<StockItem>, list: seq<StockItem>, ware: int,
                       i: nat, d: seq<StockItem>, b: seq<StockItem>, taken: nat, total: nat, given: map<int, nat>)
    requires Collecting(wares, depot, inbox, list, ware, i, d, b, taken, total, given)
    requires i == |list| || taken == total
    ensures Sound(wares, d + b) && Distinct(d + b) && Took(d + b, depot + inbox, ware, total)
    ensures NotMore(d + b, depot + inbox)
    ensures d == Thinned(depot, Shares(list, total)) && b == Thinned(inbox, Shares(list, total))
  {
    assert taken == total by {
      assert list[|list|..] == [];
    }
    assert Shares(list[i..], 0) == map[] && given + map[] == given;
  }

  lemma StacksStep(wares: Wares, depot: seq<StockItem>, inbox: seq<StockItem>, list: seq<StockItem>, ware: int,
                   i: nat, d: seq<StockItem>, b: seq<StockItem>, taken: nat, total: nat, given: map<int, nat>, n: nat)
    requires Sound(wares, depot + inbox) && Distinct(depot + inbox) && Waiting(depot + inbox, list, 0, ware, total)
    requires Collecting(wares, depot, inbox, list, ware, i, d, b, taken, total, given) && i < |list| && taken < total
    requires n == if total - taken < list[i].count then total - taken else list[i].count
    ensures Collecting(wares, depot, inbox, list, ware, i + 1, Removed(d, list[i].id, n), Removed(b, list[i].id, n),
                       taken + n, total, given[list[i].id := n])
  {
    var id := list[i].id;
    WaitingAlone(wares, depot, inbox, list, ware, total, i);
    GiveOne(depot, d, list, i, total - taken, given, Shares(list, total), n);
    GiveOne(inbox, b, list, i, total - taken, given, Shares(list, total), n);
    RemoveStep(wares, d, b, depot + inbox, list, i, ware, taken, total - taken, n, Removed(d, id, n),
      Removed(b, id, n));
  }

  lemma SinglesStep(wares: Wares, depot: seq<StockItem>, inbox: seq<StockItem>, list: seq<StockItem>, ware: int,
                    i: nat, d: seq<StockItem>, b: seq<StockItem>, taken: nat, total: nat, given: map<int, nat>)
    returns (given': map<int, nat>)
    requires Sound(wares, depot + inbox) && Distinct(depot + inbox) && Waiting(depot + inbox, list, 0, ware, total)
    requires Collecting(wares, depot, inbox, list, ware, i, d, b, taken, total, given) && i < |list|
    requires taken + list[i].count <= total
    ensures Collecting(wares, depot, inbox, list, ware, i + 1, Removed(d, list[i].id, list[i].count),
                       Removed(b, list[i].id, list[i].count), taken + list[i].count, total, given')
  {
    var item := list[i];
    if taken < total {
      StacksStep(wares, depot, inbox, list, ware, i, d, b, taken, total, given, item.count);
      given' := given[item.id := item.count];
    } else {
      given' := given;
      assert Shares(list[i..], 0) == map[] && Shares(list[i + 1..], 0) == map[];
      RemoveStep(wares, d, b, depot + inbox, list, i, ware, taken, 0, 0, d, b);
    }
  }

  /** The removal loop for a stackable ware: it ends with exactly the amount taken, from the first items on. */
  method RemoveStacks(wares: Wares, depot: seq<StockItem>, inbox: seq<StockItem>, itemList: seq<StockItem>, ware: int,
                      amount: nat)
    returns (depot': seq<StockItem>, inbox': seq<StockItem>)
    requires Sound(wares, depot + inbox) && Distinct(depot + inbox) && amount > 0
    requires Waiting(depot + inbox, itemList, 0, ware, amount)
    ensures Sound(wares, depot' + inbox') && Distinct(depot' + inbox')
    ensures Took(depot' + inbox', depot + inbox, ware, amount) && NotMore(depot' + inbox', depot + inbox)
    ensures depot' == Thinned(depot, Shares(itemList, amount)) && inbox' == Thinned(inbox, Shares(itemList, amount))
  {
    depot', inbox' := depot, inbox;
    ghost var given: map<int, nat> := map[];
    CollectingNone(wares, depot, inbox, itemList, ware, amount);
    var tmpAmount: nat := amount;
    ghost var taken: nat := 0;
    var i := 0;
    while i < |itemList| && tmpAmount > 0
      invariant 0 <= i <= |itemList| && taken + tmpAmount == amount
      invariant Collecting(wares, depot, inbox, itemList, ware, i, depot', inbox', taken, amount, given)
    {
      var item := itemList[i];
      var removeCount := if tmpAmount < item.count then tmpAmount else item.count;
      StacksStep(wares, depot, inbox, itemList, ware, i, depot', inbox', taken, amount, given, removeCount);
      depot', inbox' := Removed(depot', item.id, removeCount), Removed(inbox', item.id, removeCount);
      given, taken := given[item.id := removeCount], taken + removeCount;
      tmpAmount := tmpAmount - removeCount;
      i := i + 1;
    }
    CollectingDone(wares, depot, inbox, itemList, ware, i, depot', inbox', taken, amount, given);
  }

  /** The removal loop for a ware that does not stack: every item of the list goes, with all that it counts. */
  method RemoveSingles(wares: Wares, depot: seq<StockItem>, inbox: seq<StockItem>, itemList: seq<StockItem>, ware: int)
    returns (depot': seq<StockItem>, inbox': seq<StockItem>)
    requires Sound(wares, depot + inbox) && Distinct(depot + inbox)
    requires Waiting(depot + inbox, itemList, 0, ware, Units(itemList))
    ensures Sound(wares, depot' + inbox') && Distinct(depot' + inbox')
    ensures Took(depot' + inbox', depot + inbox, ware, Units(itemList)) && NotMore(depot' + inbox', depot + inbox)
    ensures depot' == Thinned(depot, Shares(itemList, Units(itemList)))
    ensures inbox' == Thinned(inbox, Shares(itemList, Units(itemList)))
  {
    depot', inbox' := depot, inbox;
    ghost var total, taken: nat := Units(itemList), 0;
    ghost var given: map<int, nat> := map[];
    CollectingNone(wares, depot, inbox, itemList, ware, total);
    assert itemList[0..] == itemList;
    var i := 0;
    while i < |itemList|
      invariant 0 <= i <= |itemList| && taken + Units(itemList[i..]) == total
      invariant Collecting(wares, depot, inbox, itemList, ware, i, depot', inbox', taken, total, given)
    {
      var item := itemList[i];
      assert itemList[i..][1..] == itemList[i + 1..];
      given := SinglesStep(wares, depot, inbox, itemList, ware, i, depot', inbox', taken, total, given);
      depot', inbox' := Removed(depot', item.id, item.count), Removed(inbox', item.id, item.count);
      taken := taken + item.count;
      i := i + 1;
    }
    CollectingDone(wares, depot, inbox, itemList, ware, i, depot', inbox', taken, total, given);
  }
}
