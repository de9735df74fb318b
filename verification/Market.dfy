/** The player market: money and goods are held in escrow by the offers. */
module Market {
  import opened Options
  import opened Sums
  import opened MarketStock

  const MAX_AMOUNT := 64000
  const MAX_PRICE := 999999999
  const MAX_SINGLES := 2000

  datatype Account = Account(bank: nat, depot: seq<StockItem>, inbox: seq<StockItem>)

  datatype Offer = Offer(owner: nat, buy: bool, ware: int, amount: nat, price: nat)

  // ---------- what is conserved ----------

  function BankOf(a: Account): int { a.bank }

  function EscrowOf(o: Offer): int { if o.buy then o.price * o.amount else 0 }

  /** Bank balances, money in buy offers and the fees paid so far. */
  function Money(accounts: seq<Account>, offers: seq<Offer>, fees: nat): int {
    SumOf(accounts, BankOf) + SumOf(offers, EscrowOf) + fees
  }

  function Held(a: Account, ware: int): nat { Goods(a.depot + a.inbox, ware) }

  function HeldOf(ware: int): Account -> int { (a: Account) => Held(a, ware) }

  function SaleOf(ware: int): Offer -> int { (o: Offer) => if !o.buy && o.ware == ware then o.amount else 0 }

  /** The units of a ware in depots, inboxes and sell offers. */
  function AllGoods(accounts: seq<Account>, offers: seq<Offer>, ware: int): int {
    SumOf(accounts, HeldOf(ware)) + SumOf(offers, SaleOf(ware))
  }

  // ---------- sound accounts and offers ----------

  ghost predicate Unused(ts: seq<StockItem>, nextId: int) {
    forall id {:trigger Times(ts, id)} :: id >= nextId ==> Times(ts, id) == 0
  }

  ghost predicate AccountOk(wares: Wares, a: Account, nextId: int) {
    Sound(wares, a.depot + a.inbox) && Distinct(a.depot + a.inbox) && Unused(a.depot + a.inbox, nextId)
  }

  ghost predicate OfferOk(o: Offer, players: nat) {
    o.owner < players && 1 <= o.amount <= MAX_AMOUNT && 1 <= o.price <= MAX_PRICE
  }

  /** A stackable ware stacks at least one unit, and then its items may count more than one. */
  ghost predicate Stocked(wares: Wares) {
    forall w {:trigger wares(w)} :: wares(w).maxCount >= 1 && !(wares(w).stackable && wares(w).single)
  }

  ghost predicate AllOk(wares: Wares, accounts: seq<Account>, offers: seq<Offer>, nextId: int) {
    && (forall p {:trigger accounts[p]} :: 0 <= p < |accounts| ==> AccountOk(wares, accounts[p], nextId))
    && (forall k {:trigger offers[k]} :: 0 <= k < |offers| ==> OfferOk(offers[k], |accounts|))
  }

  // ---------- taking goods from an account ----------

  predicate Sellable(a: Account, ware: int, amount: nat) {
    Pick(Stock(a.depot, a.inbox), ware, amount, [], 0).Some?
  }

  /** The units that a sale of an amount really takes: what does not stack goes as whole items. */
  function Cost(wares: Wares, a: Account, ware: int, amount: nat): nat
    requires Sellable(a, ware, amount)
  {
    if wares(ware).stackable then amount else Units(Pick(Stock(a.depot, a.inbox), ware, amount, [], 0).value)
  }

  /** What a sale leaves of an account: the items found give the amount, from the first on, or all that they count. */
  function AfterSale(wares: Wares, a: Account, ware: int, amount: nat): Account
    requires Sellable(a, ware, amount)
  {
    var taken := Shares(Pick(Stock(a.depot, a.inbox), ware, amount, [], 0).value, Cost(wares, a, ware, amount));
    Account(a.bank, Thinned(a.depot, taken), Thinned(a.inbox, taken))
  }

  /** What is found is enough and stays within what is there. */
  lemma FoundIsWaiting(wares: Wares, a: Account, nextId: int, ware: int, amount: nat, list: seq<StockItem>)
    requires AccountOk(wares, a, nextId)
    requires Pick(Stock(a.depot, a.inbox), ware, amount, [], 0) == Some(list)
    ensures Units(list) >= amount && Waiting(a.depot + a.inbox, list, 0, ware, Units(list))
  {
    var leaves, ts := Stock(a.depot, a.inbox), a.depot + a.inbox;
    PickIsEnough(leaves, ware, amount, [], 0);
    StockIsAll(a.depot, a.inbox);
    PickedDiffer(ts, list);
    assert list[0..] == list;
    forall j | 0 <= j < |list| ensures list[j] in Leaves(ts) && list[j].ware == ware {
      assert list[j] in list && list[j] in multiset(list);
      assert Sells(list[j], ware);
    }
  }

  /** A sale never takes too little, and takes exactly the amount of what stacks or comes in ones. */
  lemma CostCovers(wares: Wares, a: Account, nextId: int, ware: int, amount: nat)
    requires AccountOk(wares, a, nextId) && Sellable(a, ware, amount) && 0 < amount < WRAP
    ensures Cost(wares, a, ware, amount) >= amount
    ensures wares(ware).stackable || wares(ware).single ==> Cost(wares, a, ware, amount) == amount
  {
    var leaves, ts := Stock(a.depot, a.inbox), a.depot + a.inbox;
    PickIsEnough(leaves, ware, amount, [], 0);
    if wares(ware).single {
      StockIsAll(a.depot, a.inbox);
      forall i | 0 <= i < |leaves| && Sells(leaves[i], ware) ensures leaves[i].count <= 1 {
        assert leaves[i] in multiset(leaves);
        SoundLeaf(wares, ts, leaves[i]);
      }
      PickSingles(leaves, ware, amount, [], 0);
    }
  }

  /** A sale of any amount takes exactly that if and only if the search counts the stock one by one. */
  lemma CostIsFair(wares: Wares, a: Account, ware: int)
    requires !wares(ware).stackable
    ensures (forall amount: nat {:trigger Sellable(a, ware, amount)} ::
               amount > 0 && Sellable(a, ware, amount) ==> Cost(wares, a, ware, amount) == amount)
       <==> CountsByOne(Stock(a.depot, a.inbox), ware, 0, 0, 0)
  {
    var leaves := Stock(a.depot, a.inbox);
    FairExactly(leaves, ware, [], 0, 0);
    forall amount: nat
      ensures TakesExactly(leaves, ware, amount, [], 0) ==
        (Sellable(a, ware, amount) ==> Cost(wares, a, ware, amount) == amount)
    {
    }
    if forall amount: nat {:trigger Sellable(a, ware, amount)} ::
      amount > 0 && Sellable(a, ware, amount) ==> Cost(wares, a, ware, amount) == amount
    {
      forall amount: nat | amount > 0 ensures TakesExactly(leaves, ware, amount, [], 0) {
        assert Sellable(a, ware, amount) ==> Cost(wares, a, ware, amount) == amount;
      }
    }
  }

  method TakeFrom(wares: Wares, a: Account, ghost nextId: int, ware: int, amount: nat) returns (ok: bool, a': Account)
    requires AccountOk(wares, a, nextId) && 0 < amount < WRAP
    ensures ok == Sellable(a, ware, amount)
    ensures ok ==> AccountOk(wares, a', nextId) && a' == AfterSale(wares, a, ware, amount)
    ensures ok ==> Took(a'.depot + a'.inbox, a.depot + a.inbox, ware, Cost(wares, a, ware, amount))
    ensures !ok ==> a' == a
  {
    var itemList := GetMarketItemList(ware, amount, a.depot, a.inbox);
    if itemList == [] {
      return false, a;
    }
    FoundIsWaiting(wares, a, nextId, ware, amount, itemList);
    var depot, inbox;
    if wares(ware).stackable {
      depot, inbox := RemoveStacks(wares, a.depot, a.inbox, itemList, ware, amount);
    } else {
      depot, inbox := RemoveSingles(wares, a.depot, a.inbox, itemList, ware);
    }
    ok, a' := true, Account(a.bank, depot, inbox);
    forall id {:trigger Times(depot + inbox, id)} | id >= nextId ensures Times(depot + inbox, id) == 0 {
      assert Times(a.depot + a.inbox, id) == 0;
    }
  }

  // ---------- delivering goods to an inbox ----------

  function NewItem(wares: Wares, ware: int, id: int, count: nat): StockItem {
    StockItem(id, ware, count, true, wares(ware).container && !wares(ware).stackable, [])
  }

  /** How many units a new item of a ware counts, unless fewer are left. */
  function FullCount(wares: Wares, ware: int): nat { if wares(ware).stackable then wares(ware).maxCount else 1 }

  /** The goods delivered: new items of the ware that can be sold on, all of them full but for the last one made. */
  ghost predicate Delivery(wares: Wares, created: seq<StockItem>, ware: int, amount: nat) {
    && Units(created) == amount
    && (forall i {:trigger created[i]} :: 0 <= i < |created| ==> Delivered(wares, created[i], ware))
    && (forall i {:trigger created[i]} :: 1 <= i < |created| ==> created[i].count == FullCount(wares, ware))
  }

  ghost predicate Delivered(wares: Wares, t: StockItem, ware: int) {
    && Sells(t, ware) && !IsBox(t) && t.items == [] && 1 <= t.count <= FullCount(wares, ware)
    && (t.container <==> wares(ware).container && !wares(ware).stackable)
  }

  /** New goods are all for sale. */
  lemma {:induction false} NewForSale(wares: Wares, created: seq<StockItem>, ware: int, amount: nat, w: int)
    requires Delivery(wares, created, ware, amount)
    ensures ForSale(created, w) == if w == ware then amount else 0
  {
    if created != [] {
      assert Delivered(wares, created[0], ware);
      var rest := created[1..];
      assert forall i :: 0 <= i < |rest| ==> rest[i] == created[i + 1];
      NewForSale(wares, rest, ware, amount - created[0].count, w);
    }
  }

  /** After a delivery the search can find exactly that much more. */
  lemma DeliveredForSale(wares: Wares, a: Account, created: seq<StockItem>, ware: int, amount: nat, w: int)
    requires Delivery(wares, created, ware, amount)
    ensures Matching(Stock(a.depot, created + a.inbox), w) ==
      Matching(Stock(a.depot, a.inbox), w) + if w == ware then amount else 0
  {
    StockForSale(a.depot, created + a.inbox, w);
    StockForSale(a.depot, a.inbox, w);
    ForSaleConcat(created, a.inbox, w);
    NewForSale(wares, created, ware, amount, w);
  }

  lemma DeliveryOn(wares: Wares, created: seq<StockItem>, ware: int, n: nat, item: StockItem)
    requires Delivery(wares, created, ware, n) && Delivered(wares, item, ware)
    requires created != [] ==> created[0].count == FullCount(wares, ware)
    ensures Delivery(wares, [item] + created, ware, n + item.count)
  {
    assert ([item] + created)[1..] == created;
    forall i | 1 <= i < |created| + 1 ensures ([item] + created)[i].count == FullCount(wares, ware) {
      assert ([item] + created)[i] == created[i - 1];
    }
  }

  lemma DeliverOne(wares: Wares, a: Account, nextId: int, ware: int, n: nat, item: StockItem, a': Account)
    requires AccountOk(wares, a, nextId) && Stocked(wares) && 1 <= n < WRAP && (wares(ware).stackable || n == 1)
    requires item == NewItem(wares, ware, nextId, n) && a' == a.(inbox := [item] + a.inbox)
    ensures AccountOk(wares, a', nextId + 1)
    ensures forall w {:trigger Goods(a'.depot + a'.inbox, w)} ::
      Goods(a'.depot + a'.inbox, w) == Goods(a.depot + a.inbox, w) + if w == ware then n else 0
  {
    var ts, us := a.depot + a.inbox, a'.depot + a'.inbox;
    assert [item][1..] == [] && item.items == [];
    assert us == a.depot + ([item] + a.inbox);
    SoundConcat(wares, a.depot, a.inbox);
    SoundConcat(wares, [item], a.inbox);
    SoundConcat(wares, a.depot, [item] + a.inbox);
    forall id {:trigger Times(us, id)} ensures Times(us, id) == Times(ts, id) + if id == nextId then 1 else 0 {
      TimesConcat(a.depot, a.inbox, id);
      TimesConcat([item], a.inbox, id);
      TimesConcat(a.depot, [item] + a.inbox, id);
      TimesOne(item, id);
    }
    forall id {:trigger Times(us, id)} ensures Times(us, id) <= 1 && (id >= nextId + 1 ==> Times(us, id) == 0) {
      assert Times(ts, id) <= 1 && (id >= nextId ==> Times(ts, id) == 0);
    }
    forall w {:trigger Goods(us, w)} ensures Goods(us, w) == Goods(ts, w) + if w == ware then n else 0 {
      GoodsConcat(a.depot, a.inbox, w);
      GoodsConcat([item], a.inbox, w);
      GoodsConcat(a.depot, [item] + a.inbox, w);
      GoodsOne(item, w);
    }
  }

  ghost predicate Gained(us: seq<StockItem>, ts: seq<StockItem>, ware: int, n: nat) {
    forall w {:trigger Goods(us, w)} :: Goods(us, w) == Goods(ts, w) + if w == ware then n else 0
  }

  lemma GainedTwice(vs: seq<StockItem>, us: seq<StockItem>, ts: seq<StockItem>, ware: int, m: nat, n: nat)
    requires Gained(us, ts, ware, m) && Gained(vs, us, ware, n)
    ensures Gained(vs, ts, ware, m + n)
  {
    forall w {:trigger Goods(vs, w)} ensures Goods(vs, w) == Goods(ts, w) + if w == ware then m + n else 0 {
      assert Goods(us, w) == Goods(ts, w) + if w == ware then m else 0;
    }
  }

  /** n units of a ware have been delivered. */
  ghost predicate Delivering(wares: Wares, a: Account, nextId: int, ware: int, n: nat, a': Account, nextId': int,
                             created: seq<StockItem>) {
    && AccountOk(wares, a', nextId') && nextId' >= nextId && a' == Account(a.bank, a.depot, created + a.inbox)
    && Delivery(wares, created, ware, n) && Gained(a'.depot + a'.inbox, a.depot + a.inbox, ware, n)
  }

  lemma DeliverStep(wares: Wares, a: Account, nextId: int, ware: int, n: nat, a': Account, nextId': int,
                    created: seq<StockItem>, count: nat, item: StockItem)
    requires Delivering(wares, a, nextId, ware, n, a', nextId', created) && Stocked(wares)
    requires created != [] ==> created[0].count == FullCount(wares, ware)
    requires 1 <= count <= FullCount(wares, ware) && count < WRAP && item == NewItem(wares, ware, nextId', count)
    ensures Delivering(wares, a, nextId, ware, n + count, a'.(inbox := [item] + a'.inbox), nextId' + 1,
                       [item] + created)
  {
    var b := a'.(inbox := [item] + a'.inbox);
    DeliverOne(wares, a', nextId', ware, count, item, b);
    GainedTwice(b.depot + b.inbox, a'.depot + a'.inbox, a.depot + a.inbox, ware, n, count);
    DeliveryOn(wares, created, ware, n, item);
    assert [item] + (created + a.inbox) == ([item] + created) + a.inbox;
  }

  method DeliverTo(wares: Wares, a: Account, nextId: int, ware: int, amount: nat)
    returns (a': Account, nextId': int, ghost created: seq<StockItem>)
    requires AccountOk(wares, a, nextId) && amount < WRAP && Stocked(wares)
    ensures AccountOk(wares, a', nextId') && nextId' >= nextId
    ensures a' == Account(a.bank, a.depot, created + a.inbox) && Delivery(wares, created, ware, amount)
    ensures Gained(a'.depot + a'.inbox, a.depot + a.inbox, ware, amount)
    ensures forall w {:trigger Matching(Stock(a'.depot, a'.inbox), w)} ::
      Matching(Stock(a'.depot, a'.inbox), w) == Matching(Stock(a.depot, a.inbox), w) + if w == ware then amount else 0
  {
    a', nextId', created := a, nextId, [];
    assert [] + a.inbox == a.inbox;
    var tmpAmount: nat := amount;
    while tmpAmount > 0
      invariant tmpAmount <= amount
      invariant Delivering(wares, a, nextId, ware, amount - tmpAmount, a', nextId', created)
      invariant created != [] && tmpAmount > 0 ==> created[0].count == FullCount(wares, ware)
    {
      assert wares(ware).maxCount >= 1;
      var stackCount: nat := if !wares(ware).stackable then 1
                             else if wares(ware).maxCount < tmpAmount then wares(ware).maxCount else tmpAmount;
      var item := NewItem(wares, ware, nextId', stackCount);
      DeliverStep(wares, a, nextId, ware, amount - tmpAmount, a', nextId', created, stackCount, item);
      a', nextId', created := a'.(inbox := [item] + a'.inbox), nextId' + 1, [item] + created;
      tmpAmount := tmpAmount - stackCount;
    }
    forall w {:trigger Matching(Stock(a'.depot, a'.inbox), w)}
      ensures Matching(Stock(a'.depot, a'.inbox), w) ==
        Matching(Stock(a.depot, a.inbox), w) + if w == ware then amount else 0
    {
      DeliveredForSale(wares, a, created, ware, amount, w);
    }
  }

  // ---------- the sums of the whole market ----------

  lemma MulDistributes(x: int, y: int, z: int)
    ensures x * (y - z) == x * y - x * z
  {
  }

  /** Later ids are unused as well. */
  lemma LaterIds(wares: Wares, accounts: seq<Account>, offers: seq<Offer>, nextId: int, p: nat, a: Account,
                 nextId': int)
    requires AllOk(wares, accounts, offers, nextId) && p < |accounts| && nextId' >= nextId
    requires AccountOk(wares, a, nextId')
    ensures AllOk(wares, accounts[p := a], offers, nextId')
  {
    var accounts' := accounts[p := a];
    forall q {:trigger accounts'[q]} | 0 <= q < |accounts'| ensures AccountOk(wares, accounts'[q], nextId') {
      if q != p {
        var b := accounts[q];
        assert AccountOk(wares, b, nextId);
        forall id {:trigger Times(b.depot + b.inbox, id)} | id >= nextId' ensures Times(b.depot + b.inbox, id) == 0 {
        }
      }
    }
  }

  /** Of a ware m units have left the giver and n reached the taker, where there is one; nothing else has moved. */
  ghost predicate Moved(after: seq<Account>, before: seq<Account>, giver: int, m: nat, taker: int, n: nat, ware: int) {
    && |after| == |before|
    && (forall q, w {:trigger Held(after[q], w)} :: 0 <= q < |after| ==>
          Held(after[q], w) + (if q == giver && w == ware then m else 0)
          == Held(before[q], w) + if q == taker && w == ware then n else 0)
  }

  const NOBODY := -1

  /** First a giver only, and then a taker only. */
  lemma MovedTwice(a: seq<Account>, b: seq<Account>, c: seq<Account>, giver: int, m: nat, taker: int, n: nat, ware: int)
    requires Moved(b, a, giver, m, NOBODY, 0, ware) && Moved(c, b, NOBODY, 0, taker, n, ware)
    ensures Moved(c, a, giver, m, taker, n, ware)
  {
    forall q, w {:trigger Held(c[q], w)} | 0 <= q < |c|
      ensures Held(c[q], w) + (if q == giver && w == ware then m else 0) ==
        Held(a[q], w) + if q == taker && w == ware then n else 0
    {
      assert Held(b[q], w) + (if q == giver && w == ware then m else 0) == Held(a[q], w);
    }
  }

  /** Paying in between moves no goods. */
  lemma MovedThenPaid(a: seq<Account>, b: seq<Account>, c: seq<Account>, giver: int, m: nat, taker: int, n: nat,
                      ware: int)
    requires Moved(b, a, giver, m, taker, n, ware) && |c| == |b|
    requires forall q :: 0 <= q < |b| ==> c[q].depot == b[q].depot && c[q].inbox == b[q].inbox
    ensures Moved(c, a, giver, m, taker, n, ware)
  {
    forall q, w {:trigger Held(c[q], w)} | 0 <= q < |c|
      ensures Held(c[q], w) + (if q == giver && w == ware then m else 0) ==
        Held(a[q], w) + if q == taker && w == ware then n else 0
    {
      assert Held(b[q], w) + (if q == giver && w == ware then m else 0) ==
        Held(a[q], w) + if q == taker && w == ware then n else 0;
    }
  }

  lemma BanksOnly(a: seq<Account>, b: seq<Account>, ware: int)
    requires |a| == |b| && forall q :: 0 <= q < |a| ==> b[q].depot == a[q].depot && b[q].inbox == a[q].inbox
    ensures Moved(b, a, NOBODY, 0, NOBODY, 0, ware)
  {
  }

  /** The goods that players hold have changed by n units of a ware. */
  ghost predicate HeldMove(after: seq<Account>, before: seq<Account>, ware: int, n: int) {
    forall w {:trigger SumOf(after, HeldOf(w))} ::
      SumOf(after, HeldOf(w)) == SumOf(before, HeldOf(w)) + if w == ware then n else 0
  }

  /** A player's part in a move. */
  function PartOf(p: int, players: nat, n: nat): nat { if 0 <= p < players then n else 0 }

  lemma {:induction false} HeldSums(after: seq<Account>, before: seq<Account>, giver: int, m: nat, taker: int, n: nat,
                                    ware: int, w: int, k: nat)
    requires Moved(after, before, giver, m, taker, n, ware) && k <= |after|
    ensures SumOf(after[..k], HeldOf(w)) + (if w == ware then PartOf(giver, k, m) else 0) ==
      SumOf(before[..k], HeldOf(w)) + if w == ware then PartOf(taker, k, n) else 0
    decreases k
  {
    if k > 0 {
      HeldSums(after, before, giver, m, taker, n, ware, w, k - 1);
      assert after[..k] == after[..k - 1] + [after[k - 1]] && before[..k] == before[..k - 1] + [before[k - 1]];
      SumOfAppend(after[..k - 1], after[k - 1], HeldOf(w));
      SumOfAppend(before[..k - 1], before[k - 1], HeldOf(w));
      assert Held(after[k - 1], w) + (if k - 1 == giver && w == ware then m else 0)
          == Held(before[k - 1], w) + if k - 1 == taker && w == ware then n else 0;
    }
  }

  /** What moved between players is what changed of all that they hold. */
  lemma HeldByMoves(after: seq<Account>, before: seq<Account>, giver: int, m: nat, taker: int, n: nat, ware: int)
    requires Moved(after, before, giver, m, taker, n, ware)
    ensures HeldMove(after, before, ware, PartOf(taker, |after|, n) - PartOf(giver, |after|, m))
  {
    assert after[..|after|] == after && before[..|after|] == before;
    forall w {:trigger SumOf(after, HeldOf(w))}
      ensures SumOf(after, HeldOf(w)) == SumOf(before, HeldOf(w)) +
        if w == ware then PartOf(taker, |after|, n) - PartOf(giver, |after|, m) else 0
    {
      HeldSums(after, before, giver, m, taker, n, ware, w, |after|);
    }
  }

  /** The goods for sale have lost n units of an offer. */
  ghost predicate SaleMove(after: seq<Offer>, before: seq<Offer>, o: Offer, n: nat) {
    forall w {:trigger SumOf(after, SaleOf(w))} ::
      SumOf(after, SaleOf(w)) == SumOf(before, SaleOf(w)) - SoldUnits(o, w, n)
  }

  /** The goods of every ware are what they were, but for n units of one. */
  ghost predicate GoodsLost(accounts: seq<Account>, offers: seq<Offer>, accounts0: seq<Account>, offers0: seq<Offer>,
                            ware: int, n: int) {
    forall w {:trigger AllGoods(accounts, offers, w)} ::
      AllGoods(accounts, offers, w) + (if w == ware then n else 0) == AllGoods(accounts0, offers0, w)
  }

  /** What a sale takes beyond the amount; nothing when it fails. */
  function Excess(wares: Wares, a: Account, ware: int, amount: nat): int {
    if Sellable(a, ware, amount) then Cost(wares, a, ware, amount) - amount else 0
  }

  /** Amount and price are in range, the ware is sold, and what does not stack comes in small lots. */
  predicate MayOffer(wares: Wares, players: nat, p: nat, ware: int, amount: nat, price: nat) {
    && 1 <= amount <= MAX_AMOUNT && 1 <= price <= MAX_PRICE && p < players && wares(ware).known
    && (wares(ware).stackable || amount <= MAX_SINGLES)
  }

  /** An offer is made if its owner can pay the fee, and has the price or the goods. */
  predicate MayCreate(wares: Wares, accounts: seq<Account>, p: nat, buy: bool, ware: int, amount: nat, price: nat,
                      fee: nat, admitted: bool, hasDepot: bool) {
    && MayOffer(wares, |accounts|, p, ware, amount, price) && admitted
    && if buy then price * amount + fee <= accounts[p].bank
       else fee <= accounts[p].bank && hasDepot && Sellable(accounts[p], ware, amount)
  }

  /** An owner may cancel, unless his goods are of a type that is gone. */
  predicate MayCancel(wares: Wares, offers: seq<Offer>, p: nat, k: nat) {
    k < |offers| && offers[k].owner == p && (offers[k].buy || wares(offers[k].ware).known)
  }

  /** An offer is taken if it holds the amount, and the other side has the goods or the money. */
  predicate MayTake(wares: Wares, accounts: seq<Account>, offers: seq<Offer>, p: nat, k: nat, amount: nat,
                    hasDepot: bool, buyerLoads: bool) {
    && 1 <= amount <= MAX_AMOUNT && p < |accounts| && k < |offers| && amount <= offers[k].amount
    && wares(offers[k].ware).known
    && if offers[k].buy then hasDepot && Sellable(accounts[p], offers[k].ware, amount) && buyerLoads
       else offers[k].price * amount <= accounts[p].bank
  }

  /** What accepting an offer earns player q, negative when he pays: p accepts, the owner is on the other side. */
  function Earned(o: Offer, p: nat, q: nat, amount: nat): int {
    if o.buy then if q == p then o.price * amount else 0
    else (if q == o.owner then o.price * amount else 0) - if q == p then o.price * amount else 0
  }

  ghost predicate BanksMoved(after: seq<Account>, before: seq<Account>, o: Offer, p: nat, amount: nat)
    requires |after| == |before|
  {
    forall q {:trigger Earned(o, p, q, amount)} :: 0 <= q < |after| ==>
      after[q].bank == before[q].bank + Earned(o, p, q, amount)
  }

  /** What an offer held is back with its owner, and all else is as it was. */
  ghost predicate Returned(wares: Wares, after: seq<Account>, before: seq<Account>, o: Offer, created: seq<StockItem>)
    requires o.owner < |before|
  {
    && after == (if o.buy then Credited(before, o.owner, o.price * o.amount) else Received(before, o.owner, created))
    && (!o.buy ==> Delivery(wares, created, o.ware, o.amount))
    && Moved(after, before, NOBODY, 0, if o.buy then NOBODY else o.owner, if o.buy then 0 else o.amount, o.ware)
  }

  /** The owner of a buy offer gets the amount, and it costs p goods; those of a sell offer go from the offer to p. */
  ghost predicate GoodsMoved(after: seq<Account>, before: seq<Account>, o: Offer, p: nat, cost: nat, amount: nat) {
    if o.buy then Moved(after, before, p, cost, o.owner, amount, o.ware)
    else Moved(after, before, NOBODY, 0, p, amount, o.ware)
  }

  /** What p gives when he accepts: goods for a buy offer. */
  function Given(wares: Wares, a: Account, o: Offer, amount: nat): nat
    requires o.buy ==> Sellable(a, o.ware, amount)
  {
    if o.buy then Cost(wares, a, o.ware, amount) else 0
  }

  /** A player's goods go. */
  function Sold(wares: Wares, before: seq<Account>, p: nat, ware: int, amount: nat): (after: seq<Account>)
    requires p < |before| && Sellable(before[p], ware, amount)
    ensures |after| == |before| && after[p].bank == before[p].bank
  {
    before[p := AfterSale(wares, before[p], ware, amount)]
  }

  /** New items go in front of a player's inbox. */
  function Received(before: seq<Account>, p: nat, created: seq<StockItem>): (after: seq<Account>)
    requires p < |before|
    ensures |after| == |before| && forall q :: 0 <= q < |before| ==> after[q].bank == before[q].bank
  {
    before[p := before[p].(inbox := created + before[p].inbox)]
  }

  /** A player is paid, or pays. */
  function Credited(before: seq<Account>, p: nat, sum: int): (after: seq<Account>)
    requires p < |before| && before[p].bank + sum >= 0
    ensures |after| == |before|
    ensures forall q :: 0 <= q < |before| ==> after[q].bank == before[q].bank + if q == p then sum else 0
  {
    before[p := before[p].(bank := before[p].bank + sum)]
  }

  /** What an offer costs its owner: the fee, and the price of what he buys or the goods that he sells. */
  function Funded(wares: Wares, before: seq<Account>, p: nat, buy: bool, ware: int, amount: nat, price: nat, fee: nat)
    : seq<Account>
    requires p < |before| && before[p].bank >= fee + if buy then price else 0
    requires !buy ==> Sellable(before[p], ware, amount)
  {
    if buy then Credited(before, p, 0 - price - fee) else Credited(Sold(wares, before, p, ware, amount), p, 0 - fee)
  }

  /** p sells to another player: his goods go, he is paid, and the other receives the new items. */
  function SoldTo(wares: Wares, before: seq<Account>, p: nat, owner: nat, ware: int, amount: nat, price: nat,
                  created: seq<StockItem>): seq<Account>
    requires p < |before| && owner < |before| && Sellable(before[p], ware, amount)
  {
    Received(Credited(Sold(wares, before, p, ware, amount), p, price), owner, created)
  }

  /** p pays, receives the new items, and the other is paid. */
  function BoughtFrom(before: seq<Account>, p: nat, owner: nat, price: nat, created: seq<StockItem>): seq<Account>
    requires p < |before| && owner < |before| && price <= before[p].bank
  {
    Credited(Received(Credited(before, p, 0 - price), p, created), owner, price)
  }

  /** The accounts after p has accepted an offer: he sells to the owner, who paid already, or buys what it held. */
  ghost predicate Settled(wares: Wares, after: seq<Account>, before: seq<Account>, o: Offer, p: nat, amount: nat,
                          created: seq<StockItem>)
    requires p < |before| && o.owner < |before|
    requires if o.buy then Sellable(before[p], o.ware, amount) else o.price * amount <= before[p].bank
  {
    && Delivery(wares, created, o.ware, amount)
    && after == if o.buy then SoldTo(wares, before, p, o.owner, o.ware, amount, o.price * amount, created)
                else BoughtFrom(before, p, o.owner, o.price * amount, created)
  }

  /** Players hold d units more and n units of an offer are no longer for sale: the difference is lost. */
  lemma LostBy(accounts: seq<Account>, offers: seq<Offer>, accounts0: seq<Account>, offers0: seq<Offer>, o: Offer,
               n: nat, d: int)
    requires HeldMove(accounts, accounts0, o.ware, d) && SaleMove(offers, offers0, o, n)
    ensures GoodsLost(accounts, offers, accounts0, offers0, o.ware, (if o.buy then 0 else n) - d)
  {
    forall w {:trigger AllGoods(accounts, offers, w)}
      ensures AllGoods(accounts, offers, w) + (if w == o.ware then (if o.buy then 0 else n) - d else 0)
           == AllGoods(accounts0, offers0, w)
    {
      assert SumOf(accounts, HeldOf(w)) == SumOf(accounts0, HeldOf(w)) + if w == o.ware then d else 0;
      assert SumOf(offers, SaleOf(w)) == SumOf(offers0, SaleOf(w)) - SoldUnits(o, w, n);
    }
  }

  lemma LostOnCreate(wares: Wares, accounts: seq<Account>, offers: seq<Offer>, accounts0: seq<Account>,
                     offers0: seq<Offer>, o: Offer)
    requires o.owner < |accounts0| && (!o.buy ==> Sellable(accounts0[o.owner], o.ware, o.amount))
    requires if o.buy then Moved(accounts, accounts0, NOBODY, 0, NOBODY, 0, o.ware)
      else Moved(accounts, accounts0, o.owner, Cost(wares, accounts0[o.owner], o.ware, o.amount), NOBODY, 0, o.ware)
    requires SaleMove(offers0, offers, o, o.amount)
    ensures GoodsLost(accounts, offers, accounts0, offers0, o.ware,
                      if o.buy then 0 else Excess(wares, accounts0[o.owner], o.ware, o.amount))
  {
    var cost := if o.buy then 0 else Cost(wares, accounts0[o.owner], o.ware, o.amount);
    HeldByMoves(accounts, accounts0, if o.buy then NOBODY else o.owner, cost, NOBODY, 0, o.ware);
    forall w {:trigger AllGoods(accounts, offers, w)}
      ensures AllGoods(accounts, offers, w) + (if w != o.ware || o.buy then 0 else cost - o.amount)
           == AllGoods(accounts0, offers0, w)
    {
      assert SumOf(accounts, HeldOf(w)) == SumOf(accounts0, HeldOf(w)) + if w == o.ware then 0 - cost else 0;
      assert SumOf(offers0, SaleOf(w)) == SumOf(offers, SaleOf(w)) - SoldUnits(o, w, o.amount);
    }
  }

  lemma LostOnAccept(wares: Wares, accounts: seq<Account>, offers: seq<Offer>, accounts0: seq<Account>,
                     offers0: seq<Offer>, o: Offer, p: nat, amount: nat)
    requires p < |accounts0| && o.owner < |accounts0| && (o.buy ==> Sellable(accounts0[p], o.ware, amount))
    requires GoodsMoved(accounts, accounts0, o, p, Given(wares, accounts0[p], o, amount), amount)
    requires SaleMove(offers, offers0, o, amount)
    ensures GoodsLost(accounts, offers, accounts0, offers0, o.ware,
                      if o.buy then Excess(wares, accounts0[p], o.ware, amount) else 0)
  {
    var given := Given(wares, accounts0[p], o, amount);
    HeldByMoves(accounts, accounts0, if o.buy then p else NOBODY, given, if o.buy then o.owner else p, amount, o.ware);
    LostBy(accounts, offers, accounts0, offers0, o, amount, if o.buy then amount - given else amount);
  }

  datatype Event =
    | Create(player: nat, buy: bool, ware: int, amount: nat, price: nat, fee: nat, admitted: bool, hasDepot: bool)
    | Cancel(player: nat, row: nat)
    | Accept(player: nat, row: nat, amount: nat, hasDepot: bool, buyerLoads: bool)
    | Expire(row: nat, ownerLoads: bool)

  /** Amounts have 16 bits and fees lie between 20 and 1000. */
  predicate EventOk(e: Event) { e.Create? ==> e.amount < WRAP && 20 <= e.fee <= 1000 }

  datatype Moment = Moment(accounts: seq<Account>, offers: seq<Offer>, fees: nat)

  /** The k-th row without n units of what it offers; without any it is gone. */
  function RowsLeft(offers: seq<Offer>, k: nat, n: nat): seq<Offer>
    requires k < |offers| && n <= offers[k].amount
  {
    if n == offers[k].amount then offers[..k] + offers[k + 1..]
    else offers[k := offers[k].(amount := offers[k].amount - n)]
  }

  /** What an offer held goes back to its owner, and its row goes. */
  ghost predicate GivenBack(wares: Wares, m: Moment, k: nat, n: Moment) {
    && k < |m.offers| && m.offers[k].owner < |m.accounts|
    && n.offers == m.offers[..k] + m.offers[k + 1..] && n.fees == m.fees
    && exists created {:trigger Returned(wares, n.accounts, m.accounts, m.offers[k], created)} ::
         Returned(wares, n.accounts, m.accounts, m.offers[k], created)
  }

  ghost predicate Taken(wares: Wares, m: Moment, p: nat, k: nat, amount: nat, hasDepot: bool, buyerLoads: bool,
                        n: Moment) {
    && MayTake(wares, m.accounts, m.offers, p, k, amount, hasDepot, buyerLoads)
    && m.offers[k].owner < |m.accounts| && n.offers == RowsLeft(m.offers, k, amount) && n.fees == m.fees
    && exists created {:trigger Settled(wares, n.accounts, m.accounts, m.offers[k], p, amount, created)} ::
         Settled(wares, n.accounts, m.accounts, m.offers[k], p, amount, created)
  }

  /** What an event makes of the market. */
  ghost predicate Happened(wares: Wares, m: Moment, e: Event, n: Moment) {
    match e
    case Create(p, buy, ware, amount, price, fee, admitted, hasDepot) =>
      if MayCreate(wares, m.accounts, p, buy, ware, amount, price, fee, admitted, hasDepot) then
        n == Moment(Funded(wares, m.accounts, p, buy, ware, amount, price * amount, fee),
                    m.offers + [Offer(p, buy, ware, amount, price)], m.fees + fee)
      else n == m
    case Cancel(p, k) => if MayCancel(wares, m.offers, p, k) then GivenBack(wares, m, k, n) else n == m
    case Accept(p, k, amount, hasDepot, buyerLoads) =>
      if MayTake(wares, m.accounts, m.offers, p, k, amount, hasDepot, buyerLoads)
      then Taken(wares, m, p, k, amount, hasDepot, buyerLoads, n)
      else n == m
    case Expire(k, ownerLoads) =>
      if k >= |m.offers| then n == m
      else if !m.offers[k].buy && !(wares(m.offers[k].ware).known && ownerLoads)
      then n == m.(offers := m.offers[..k] + m.offers[k + 1..])
      else GivenBack(wares, m, k, n)
  }

  ghost predicate HappenedAt(wares: Wares, trace: seq<Moment>, events: seq<Event>, i: nat)
    requires i < |events| && i + 1 < |trace|
  {
    Happened(wares, trace[i], events[i], trace[i + 1])
  }

  /** The moments before, between and after the first n events, each of which happened. */
  ghost predicate Traced(wares: Wares, trace: seq<Moment>, events: seq<Event>, n: nat) {
    && n <= |events| && |trace| == n + 1
    && forall i {:trigger HappenedAt(wares, trace, events, i)} :: 0 <= i < n ==> HappenedAt(wares, trace, events, i)
  }

  lemma TracedOn(wares: Wares, trace: seq<Moment>, events: seq<Event>, n: nat, last: Moment)
    requires Traced(wares, trace, events, n) && n < |events| && Happened(wares, trace[n], events[n], last)
    ensures Traced(wares, trace + [last], events, n + 1)
  {
    var longer := trace + [last];
    forall i | 0 <= i < n + 1 ensures HappenedAt(wares, longer, events, i) {
      assert i < n ==> HappenedAt(wares, trace, events, i);
    }
  }

  /** A known ware of which a sale takes exactly the amount. */
  predicate Whole(wares: Wares, ware: int) { wares(ware).known && (wares(ware).stackable || wares(ware).single) }

  predicate FailsToLoad(e: Event) { e.Expire? && !e.ownerLoads }

  class Market {
    var accounts: seq<Account>
    var offers: seq<Offer>
    /** Everything paid in fees so far. */
    var fees: nat
    var nextId: int

    ghost function Now(): Moment
      reads this
    {
      Moment(accounts, offers, fees)
    }

    ghost predicate Valid(wares: Wares)
      reads this
    {
      Stocked(wares) && AllOk(wares, accounts, offers, nextId)
    }

    constructor (wares: Wares, accounts: seq<Account>, offers: seq<Offer>, nextId: int)
      requires Stocked(wares) && AllOk(wares, accounts, offers, nextId)
      ensures Valid(wares) && this.accounts == accounts && this.offers == offers && fees == 0
    {
      this.accounts, this.offers, this.nextId := accounts, offers, nextId;
      fees := 0;
    }

    method SetAccount(wares: Wares, p: nat, a: Account, nextId': int)
      requires Valid(wares) && p < |accounts| && AccountOk(wares, a, nextId') && nextId' >= nextId
      modifies this`accounts, this`nextId
      ensures Valid(wares) && accounts == old(accounts)[p := a] && nextId == nextId'
    {
      LaterIds(wares, accounts, offers, nextId, p, a, nextId');
      accounts, nextId := accounts[p := a], nextId';
    }

    /** Bank money moves by a number. */
    method Pay(wares: Wares, p: nat, sum: int)
      requires Valid(wares) && p < |accounts| && accounts[p].bank + sum >= 0
      modifies this`accounts
      ensures Valid(wares) && accounts == Credited(old(accounts), p, sum)
      ensures SumOf(accounts, BankOf) == SumOf(old(accounts), BankOf) + sum
    {
      var a := accounts[p].(bank := accounts[p].bank + sum);
      SumOfUpdate(accounts, p, a, BankOf);
      LaterIds(wares, accounts, offers, nextId, p, a, nextId);
      accounts := accounts[p := a];
    }

    method Deliver(wares: Wares, p: nat, ware: int, amount: nat) returns (ghost created: seq<StockItem>)
      requires Valid(wares) && p < |accounts| && amount < WRAP
      modifies this`accounts, this`nextId
      ensures Valid(wares) && Delivery(wares, created, ware, amount)
      ensures accounts == Received(old(accounts), p, created)
      ensures Moved(accounts, old(accounts), NOBODY, 0, p, amount, ware)
      ensures SumOf(accounts, BankOf) == SumOf(old(accounts), BankOf)
    {
      assert AccountOk(wares, accounts[p], nextId);
      var a, next;
      a, next, created := DeliverTo(wares, accounts[p], nextId, ware, amount);
      forall w {:trigger Held(a, w)} ensures Held(a, w) == Held(accounts[p], w) + if w == ware then amount else 0 {
        assert Goods(a.depot + a.inbox, w) == Held(a, w);
      }
      SumOfUpdate(accounts, p, a, BankOf);
      SetAccount(wares, p, a, next);
    }

    /** Goods of a ware leave a player's depot and inbox. */
    method Collect(wares: Wares, p: nat, ware: int, amount: nat) returns (ok: bool)
      requires Valid(wares) && p < |accounts| && 0 < amount < WRAP
      modifies this`accounts, this`nextId
      ensures Valid(wares) && ok == Sellable(old(accounts)[p], ware, amount)
      ensures accounts == if ok then Sold(wares, old(accounts), p, ware, amount) else old(accounts)
      ensures ok ==> Moved(accounts, old(accounts), p, Cost(wares, old(accounts)[p], ware, amount), NOBODY, 0, ware)
      ensures SumOf(accounts, BankOf) == SumOf(old(accounts), BankOf)
    {
      assert AccountOk(wares, accounts[p], nextId);
      var a;
      ok, a := TakeFrom(wares, accounts[p], nextId, ware, amount);
      SumOfUpdate(accounts, p, a, BankOf);
      if ok {
        ghost var taken: int := Cost(wares, accounts[p], ware, amount);
        forall w {:trigger Held(a, w)} ensures Held(a, w) + (if w == ware then taken else 0) == Held(accounts[p], w) {
          assert Goods(a.depot + a.inbox, w) == Held(a, w);
        }
        SetAccount(wares, p, a, nextId);
      }
    }

    /** A row of the offer table changes or, without an amount, goes. */
    method Reduce(wares: Wares, k: nat, n: nat)
      requires Valid(wares) && k < |offers| && n <= offers[k].amount
      modifies this`offers
      ensures Valid(wares)
      ensures offers == RowsLeft(old(offers), k, n)
      ensures SumOf(offers, EscrowOf) ==
        SumOf(old(offers), EscrowOf) - if old(offers)[k].buy then old(offers)[k].price * n else 0
      ensures SaleMove(offers, old(offers), old(offers)[k], n)
    {
      var o := offers[k];
      assert OfferOk(offers[k], |accounts|);
      var o' := o.(amount := o.amount - n);
      MulDistributes(o.price, o.amount, n);
      SumOfRemove(offers, k, EscrowOf);
      SumOfUpdate(offers, k, o', EscrowOf);
      forall w ensures SumOf(offers[k := o'], SaleOf(w)) == SumOf(offers, SaleOf(w)) - SoldUnits(o, w, n) {
        SumOfUpdate(offers, k, o', SaleOf(w));
      }
      forall w
        ensures SumOf(offers[..k] + offers[k + 1..], SaleOf(w)) == SumOf(offers, SaleOf(w)) - SoldUnits(o, w, o.amount)
      {
        SumOfRemove(offers, k, SaleOf(w));
      }
      if n == o.amount {
        RowGone(wares, accounts, offers, nextId, k);
        offers := offers[..k] + offers[k + 1..];
      } else {
        RowSet(wares, accounts, offers, nextId, k, o');
        offers := offers[k := o'];
      }
    }

    /** `createOffer` of the table. */
    method AddRow(wares: Wares, offer: Offer)
      requires Valid(wares) && OfferOk(offer, |accounts|)
      modifies this`offers
      ensures Valid(wares) && offers == old(offers) + [offer]
      ensures SumOf(offers, EscrowOf) == SumOf(old(offers), EscrowOf) + EscrowOf(offer)
      ensures SaleMove(old(offers), offers, offer, offer.amount)
    {
      ghost var rows := offers;
      RowNew(wares, accounts, offers, nextId, offer);
      offers := offers + [offer];
      SumOfAppend(rows, offer, EscrowOf);
      forall w {:trigger SumOf(rows, SaleOf(w))}
        ensures SumOf(rows, SaleOf(w)) == SumOf(offers, SaleOf(w)) - SoldUnits(offer, w, offer.amount)
      {
        SumOfAppend(rows, offer, SaleOf(w));
      }
    }

    /** `playerCreateMarketOffer`; `admitted` stands for the checks on the player and the offer limit. */
    method CreateOffer(wares: Wares, p: nat, buy: bool, ware: int, amount: nat, price: nat, fee: nat, admitted: bool,
                       hasDepot: bool) returns (ok: bool)
      requires Valid(wares) && amount < WRAP && 20 <= fee <= 1000
      modifies this
      ensures Valid(wares)
      ensures ok <==> MayCreate(wares, old(accounts), p, buy, ware, amount, price, fee, admitted, hasDepot)
      ensures !ok ==> accounts == old(accounts) && offers == old(offers) && fees == old(fees)
      ensures ok ==> offers == old(offers) + [Offer(p, buy, ware, amount, price)] && fees == old(fees) + fee
      ensures ok ==> accounts == Funded(wares, old(accounts), p, buy, ware, amount, price * amount, fee)
      ensures ok ==> if buy then Moved(accounts, old(accounts), NOBODY, 0, NOBODY, 0, ware)
        else Moved(accounts, old(accounts), p, Cost(wares, old(accounts)[p], ware, amount), NOBODY, 0, ware)
      ensures Money(accounts, offers, fees) == Money(old(accounts), old(offers), old(fees))
      ensures GoodsLost(accounts, offers, old(accounts), old(offers), ware,
                        if ok && !buy then Excess(wares, old(accounts)[p], ware, amount) else 0)
    {
      if amount == 0 || amount > MAX_AMOUNT || price == 0 || price > MAX_PRICE || p >= |accounts| || !admitted {
        return false;
      }
      if !wares(ware).known || (!wares(ware).stackable && amount > MAX_SINGLES) {
        return false;
      }
      var totalPrice := price * amount;
      ok := Fund(wares, p, buy, ware, amount, totalPrice, fee, hasDepot);
      if ok {
        fees := fees + fee;
        AddRow(wares, Offer(p, buy, ware, amount, price));
        LostOnCreate(wares, accounts, offers, old(accounts), old(offers), Offer(p, buy, ware, amount, price));
      }
    }

    /** A new offer takes its fee, and its goods or its price. */
    method Fund(wares: Wares, p: nat, buy: bool, ware: int, amount: nat, totalPrice: nat, fee: nat, hasDepot: bool)
      returns (ok: bool)
      requires Valid(wares) && p < |accounts| && 0 < amount < WRAP
      modifies this`accounts, this`nextId
      ensures Valid(wares) && |accounts| == |old(accounts)| && (!ok ==> accounts == old(accounts))
      ensures ok <==> if buy then totalPrice + fee <= old(accounts)[p].bank
                      else fee <= old(accounts)[p].bank && hasDepot && Sellable(old(accounts)[p], ware, amount)
      ensures ok ==> accounts == Funded(wares, old(accounts), p, buy, ware, amount, totalPrice, fee)
      ensures ok ==> SumOf(accounts, BankOf) == SumOf(old(accounts), BankOf) - fee - if buy then totalPrice else 0
      ensures ok ==> if buy then Moved(accounts, old(accounts), NOBODY, 0, NOBODY, 0, ware)
        else Moved(accounts, old(accounts), p, Cost(wares, old(accounts)[p], ware, amount), NOBODY, 0, ware)
    {
      if buy {
        ok := FundPurchase(wares, p, ware, totalPrice, fee);
      } else if fee > accounts[p].bank || !hasDepot {
        ok := false;
      } else {
        ok := FundSale(wares, p, ware, amount, fee);
      }
    }

    method FundPurchase(wares: Wares, p: nat, ghost ware: int, totalPrice: nat, fee: nat) returns (ok: bool)
      requires Valid(wares) && p < |accounts|
      modifies this`accounts
      ensures Valid(wares) && ok == (totalPrice + fee <= old(accounts)[p].bank) && (!ok ==> accounts == old(accounts))
      ensures ok ==> accounts == Credited(old(accounts), p, 0 - totalPrice - fee)
      ensures ok ==> SumOf(accounts, BankOf) == SumOf(old(accounts), BankOf) - totalPrice - fee
      ensures ok ==> Moved(accounts, old(accounts), NOBODY, 0, NOBODY, 0, ware)
    {
      ok := totalPrice + fee <= accounts[p].bank;
      if ok {
        Pay(wares, p, 0 - totalPrice - fee);
        BanksOnly(old(accounts), accounts, ware);
      }
    }

    method FundSale(wares: Wares, p: nat, ware: int, amount: nat, fee: nat) returns (ok: bool)
      requires Valid(wares) && p < |accounts| && 0 < amount < WRAP && fee <= accounts[p].bank
      modifies this`accounts, this`nextId
      ensures Valid(wares) && ok == Sellable(old(accounts)[p], ware, amount) && (!ok ==> accounts == old(accounts))
      ensures ok ==> accounts == Credited(Sold(wares, old(accounts), p, ware, amount), p, 0 - fee)
      ensures ok ==> SumOf(accounts, BankOf) == SumOf(old(accounts), BankOf) - fee
      ensures ok ==> Moved(accounts, old(accounts), p, Cost(wares, old(accounts)[p], ware, amount), NOBODY, 0, ware)
    {
      ok := Collect(wares, p, ware, amount);
      if ok {
        ghost var collected, cost := accounts, Cost(wares, old(accounts)[p], ware, amount);
        Pay(wares, p, 0 - fee);
        MovedThenPaid(old(accounts), collected, accounts, p, cost, NOBODY, 0, ware);
      }
    }

    /** What an offer holds goes back to its owner: money to the bank, goods to the inbox. */
    method GiveBack(wares: Wares, offer: Offer) returns (ghost created: seq<StockItem>)
      requires Valid(wares) && OfferOk(offer, |accounts|)
      modifies this`accounts, this`nextId
      ensures Valid(wares) && Returned(wares, accounts, old(accounts), offer, created)
      ensures SumOf(accounts, BankOf) == SumOf(old(accounts), BankOf) + EscrowOf(offer)
    {
      if offer.buy {
        var totalPrice := offer.price * offer.amount;
        Pay(wares, offer.owner, totalPrice);
        BanksOnly(old(accounts), accounts, offer.ware);
        created := [];
      } else {
        created := Deliver(wares, offer.owner, offer.ware, offer.amount);
      }
    }

    /** `playerCancelMarketOffer` on the k-th row, if there is one. */
    method CancelOffer(wares: Wares, p: nat, k: nat) returns (ok: bool, ghost created: seq<StockItem>)
      requires Valid(wares)
      modifies this
      ensures Valid(wares)
      ensures ok <==> MayCancel(wares, old(offers), p, k)
      ensures !ok ==> accounts == old(accounts) && offers == old(offers)
      ensures ok ==> offers == old(offers)[..k] + old(offers)[k + 1..]
      ensures fees == old(fees) && |accounts| == |old(accounts)|
      ensures ok ==> old(offers)[k].owner < |old(accounts)|
                     && Returned(wares, accounts, old(accounts), old(offers)[k], created)
      ensures Money(accounts, offers, fees) == Money(old(accounts), old(offers), old(fees))
      ensures GoodsLost(accounts, offers, old(accounts), old(offers), 0, 0)
    {
      if k >= |offers| || offers[k].owner != p {
        return false, [];
      }
      var offer := offers[k];
      assert OfferOk(offers[k], |accounts|);
      if !offer.buy && !wares(offer.ware).known {
        return false, [];
      }
      created := GiveBack(wares, offer);
      HeldByMoves(accounts, old(accounts), NOBODY, 0, if offer.buy then NOBODY else offer.owner,
        if offer.buy then 0 else offer.amount, offer.ware);
      Reduce(wares, k, offer.amount);
      ok := true;
    }

    /** Goods go from player p to the owner of a buy offer, who paid already. */
    method SellTo(wares: Wares, p: nat, owner: nat, ware: int, amount: nat, totalPrice: nat)
      returns (ok: bool, ghost created: seq<StockItem>)
      requires Valid(wares) && p < |accounts| && owner < |accounts| && 0 < amount < WRAP
      modifies this`accounts, this`nextId
      ensures Valid(wares) && ok == Sellable(old(accounts)[p], ware, amount) && (!ok ==> accounts == old(accounts))
      ensures ok ==> Delivery(wares, created, ware, amount)
      ensures ok ==> accounts == SoldTo(wares, old(accounts), p, owner, ware, amount, totalPrice, created)
      ensures ok ==> SumOf(accounts, BankOf) == SumOf(old(accounts), BankOf) + totalPrice
      ensures ok ==> Moved(accounts, old(accounts), p, Cost(wares, old(accounts)[p], ware, amount), owner, amount, ware)
    {
      ok := Collect(wares, p, ware, amount);
      created := [];
      if ok {
        ghost var collected, cost := accounts, Cost(wares, old(accounts)[p], ware, amount);
        Pay(wares, p, totalPrice);
        ghost var paid := accounts;
        MovedThenPaid(old(accounts), collected, paid, p, cost, NOBODY, 0, ware);
        created := Deliver(wares, owner, ware, amount);
        MovedTwice(old(accounts), paid, accounts, p, cost, owner, amount, ware);
      }
    }

    /** Player p pays the owner of a sell offer and gets the goods that the offer held. */
    method BuyFrom(wares: Wares, p: nat, owner: nat, ware: int, amount: nat, totalPrice: nat)
      returns (ghost created: seq<StockItem>)
      requires Valid(wares) && p < |accounts| && owner < |accounts| && amount < WRAP && totalPrice <= accounts[p].bank
      modifies this`accounts, this`nextId
      ensures Valid(wares) && Delivery(wares, created, ware, amount)
      ensures accounts == BoughtFrom(old(accounts), p, owner, totalPrice, created)
      ensures SumOf(accounts, BankOf) == SumOf(old(accounts), BankOf)
      ensures Moved(accounts, old(accounts), NOBODY, 0, p, amount, ware)
    {
      created := PayAndReceive(wares, p, ware, amount, totalPrice);
      ghost var received := accounts;
      Pay(wares, owner, totalPrice);
      MovedThenPaid(old(accounts), received, accounts, NOBODY, 0, p, amount, ware);
    }

    method PayAndReceive(wares: Wares, p: nat, ware: int, amount: nat, totalPrice: nat)
      returns (ghost created: seq<StockItem>)
      requires Valid(wares) && p < |accounts| && amount < WRAP && totalPrice <= accounts[p].bank
      modifies this`accounts, this`nextId
      ensures Valid(wares) && Delivery(wares, created, ware, amount)
      ensures accounts == Received(Credited(old(accounts), p, 0 - totalPrice), p, created)
      ensures SumOf(accounts, BankOf) == SumOf(old(accounts), BankOf) - totalPrice
      ensures Moved(accounts, old(accounts), NOBODY, 0, p, amount, ware)
    {
      Pay(wares, p, 0 - totalPrice);
      ghost var paid := accounts;
      BanksOnly(old(accounts), paid, ware);
      created := Deliver(wares, p, ware, amount);
      MovedTwice(old(accounts), paid, accounts, NOBODY, 0, p, amount, ware);
    }

    /** Money and goods change hands, if both sides have what it takes. */
    method Settle(wares: Wares, p: nat, offer: Offer, amount: nat, hasDepot: bool, buyerLoads: bool)
      returns (ok: bool, ghost created: seq<StockItem>)
      requires Valid(wares) && p < |accounts| && OfferOk(offer, |accounts|) && 0 < amount <= offer.amount
      modifies this`accounts, this`nextId
      ensures Valid(wares) && |accounts| == |old(accounts)| && (!ok ==> accounts == old(accounts))
      ensures ok == if offer.buy then hasDepot && Sellable(old(accounts)[p], offer.ware, amount) && buyerLoads
                    else offer.price * amount <= old(accounts)[p].bank
      ensures ok ==> Settled(wares, accounts, old(accounts), offer, p, amount, created)
      ensures ok ==> BanksMoved(accounts, old(accounts), offer, p, amount)
      ensures ok ==> GoodsMoved(accounts, old(accounts), offer, p, Given(wares, old(accounts)[p], offer, amount),
        amount)
      ensures ok ==>
        SumOf(accounts, BankOf) == SumOf(old(accounts), BankOf) + if offer.buy then offer.price * amount else 0
    {
      var totalPrice := offer.price * amount;
      if offer.buy {
        if !hasDepot || !buyerLoads {
          return false, [];
        }
        ok, created := SellTo(wares, p, offer.owner, offer.ware, amount, totalPrice);
      } else {
        if totalPrice > accounts[p].bank {
          return false, [];
        }
        created := BuyFrom(wares, p, offer.owner, offer.ware, amount, totalPrice);
        ok := true;
      }
    }

    /** `playerAcceptMarketOffer` on the k-th row, if there is one; an offline buyer may fail to load. */
    method AcceptOffer(wares: Wares, p: nat, k: nat, amount: nat, hasDepot: bool, buyerLoads: bool)
      returns (ok: bool, ghost created: seq<StockItem>)
      requires Valid(wares)
      modifies this
      ensures Valid(wares)
      ensures ok <==> MayTake(wares, old(accounts), old(offers), p, k, amount, hasDepot, buyerLoads)
      ensures !ok ==> accounts == old(accounts) && offers == old(offers)
      ensures ok ==> offers == RowsLeft(old(offers), k, amount)
      ensures ok ==> old(offers)[k].owner < |old(accounts)|
                     && Settled(wares, accounts, old(accounts), old(offers)[k], p, amount, created)
      ensures ok ==> |accounts| == |old(accounts)| && BanksMoved(accounts, old(accounts), old(offers)[k], p, amount)
      ensures ok ==>
        GoodsMoved(accounts, old(accounts), old(offers)[k], p, Given(wares, old(accounts)[p], old(offers)[k], amount),
          amount)
      ensures fees == old(fees)
      ensures Money(accounts, offers, fees) == Money(old(accounts), old(offers), old(fees))
      ensures ok ==> GoodsLost(accounts, offers, old(accounts), old(offers), old(offers)[k].ware,
                               if old(offers)[k].buy
                               then Excess(wares, old(accounts)[p], old(offers)[k].ware, amount)
                               else 0)
    {
      if amount == 0 || amount > MAX_AMOUNT || p >= |accounts| || k >= |offers| || amount > offers[k].amount {
        return false, [];
      }
      var offer := offers[k];
      assert OfferOk(offers[k], |accounts|);
      if !wares(offer.ware).known {
        return false, [];
      }
      ok, created := Execute(wares, p, k, amount, hasDepot, buyerLoads);
    }

    /** What accepting comes to once the offer and the amount have been checked. */
    method Execute(wares: Wares, p: nat, k: nat, amount: nat, hasDepot: bool, buyerLoads: bool)
      returns (ok: bool, ghost created: seq<StockItem>)
      requires Valid(wares) && p < |accounts| && k < |offers| && 1 <= amount <= offers[k].amount
      modifies this
      ensures Valid(wares) && fees == old(fees) && (!ok ==> accounts == old(accounts) && offers == old(offers))
      ensures ok == if old(offers)[k].buy
                    then hasDepot && Sellable(old(accounts)[p], old(offers)[k].ware, amount) && buyerLoads
                    else old(offers)[k].price * amount <= old(accounts)[p].bank
      ensures ok ==> offers == RowsLeft(old(offers), k, amount)
      ensures ok ==> old(offers)[k].owner < |old(accounts)|
                     && Settled(wares, accounts, old(accounts), old(offers)[k], p, amount, created)
      ensures ok ==> |accounts| == |old(accounts)| && BanksMoved(accounts, old(accounts), old(offers)[k], p, amount)
      ensures ok ==>
        GoodsMoved(accounts, old(accounts), old(offers)[k], p, Given(wares, old(accounts)[p], old(offers)[k], amount),
          amount)
      ensures Money(accounts, offers, fees) == Money(old(accounts), old(offers), old(fees))
      ensures ok ==> GoodsLost(accounts, offers, old(accounts), old(offers), old(offers)[k].ware,
                               if old(offers)[k].buy
                               then Excess(wares, old(accounts)[p], old(offers)[k].ware, amount)
                               else 0)
    {
      var offer := offers[k];
      assert OfferOk(offers[k], |accounts|);
      ok, created := Settle(wares, p, offer, amount, hasDepot, buyerLoads);
      if ok {
        Reduce(wares, k, amount);
        LostOnAccept(wares, accounts, offers, old(accounts), old(offers), offer, p, amount);
      }
    }

    /** One row of `processExpiredOffers`: the row goes, whatever happens to what it held. */
    method ExpireOffer(wares: Wares, k: nat, ownerLoads: bool) returns (lost: bool, ghost created: seq<StockItem>)
      requires Valid(wares) && k < |offers|
      modifies this
      ensures Valid(wares) && offers == old(offers)[..k] + old(offers)[k + 1..] && fees == old(fees)
      ensures lost <==> !old(offers)[k].buy && !(wares(old(offers)[k].ware).known && ownerLoads)
      ensures old(offers)[k].owner < |old(accounts)|
      ensures if lost then accounts == old(accounts)
              else Returned(wares, accounts, old(accounts), old(offers)[k], created)
      ensures Money(accounts, offers, fees) == Money(old(accounts), old(offers), old(fees))
      ensures GoodsLost(accounts, offers, old(accounts), old(offers), old(offers)[k].ware,
        if lost then old(offers)[k].amount else 0)
    {
      var offer := offers[k];
      assert OfferOk(offers[k], |accounts|);
      Reduce(wares, k, offer.amount);
      lost := !offer.buy && (!wares(offer.ware).known || !ownerLoads);
      created := [];
      if !lost {
        created := GiveBack(wares, offer);
        HeldByMoves(accounts, old(accounts), NOBODY, 0, if offer.buy then NOBODY else offer.owner,
          if offer.buy then 0 else offer.amount, offer.ware);
      }
    }

    /**
     * Any run of the market: the money is the same at the end. No goods are made, and of a ware that stacks or comes
     * in ones none are lost but those that expire without a type or an owner.
     */
    method Run(wares: Wares, events: seq<Event>, ghost ware: int) returns (ghost lost: nat, ghost trace: seq<Moment>)
      requires Valid(wares)
      requires forall i :: 0 <= i < |events| ==> EventOk(events[i])
      modifies this
      ensures Valid(wares)
      ensures Money(accounts, offers, fees) == Money(old(accounts), old(offers), old(fees))
      ensures AllGoods(accounts, offers, ware) + lost == AllGoods(old(accounts), old(offers), ware)
      ensures (Whole(wares, ware) && forall i :: 0 <= i < |events| ==> !FailsToLoad(events[i])) ==> lost == 0
      ensures Traced(wares, trace, events, |events|) && trace[0] == old(Now()) && trace[|events|] == Now()
    {
      lost, trace := 0, [Now()];
      var i := 0;
      while i < |events|
        invariant 0 <= i <= |events| && Valid(wares)
        invariant Money(accounts, offers, fees) == Money(old(accounts), old(offers), old(fees))
        invariant AllGoods(accounts, offers, ware) + lost == AllGoods(old(accounts), old(offers), ware)
        invariant (Whole(wares, ware) && forall j :: 0 <= j < i ==> !FailsToLoad(events[j])) ==> lost == 0
        invariant Traced(wares, trace, events, i) && trace[0] == old(Now()) && trace[i] == Now()
      {
        assert EventOk(events[i]);
        ghost var less := Step(wares, events[i], ware);
        TracedOn(wares, trace, events, i, Now());
        lost, trace := lost + less, trace + [Now()];
        i := i + 1;
      }
    }

    /** One event, and what it loses of a ware. */
    method Step(wares: Wares, event: Event, ghost ware: int) returns (ghost lost: nat)
      requires Valid(wares) && EventOk(event)
      modifies this
      ensures Valid(wares)
      ensures Money(accounts, offers, fees) == Money(old(accounts), old(offers), old(fees))
      ensures AllGoods(accounts, offers, ware) + lost == AllGoods(old(accounts), old(offers), ware)
      ensures Whole(wares, ware) && !FailsToLoad(event) ==> lost == 0
      ensures Happened(wares, old(Now()), event, Now())
    {
      match event {
        case Create(_, _, _, _, _, _, _, _) => lost := StepCreate(wares, event, ware);
        case Cancel(p, k) =>
          var ok, created := CancelOffer(wares, p, k);
          lost := 0;
        case Accept(_, _, _, _, _) => lost := StepAccept(wares, event, ware);
        case Expire(_, _) => lost := StepExpire(wares, event, ware);
      }
    }

    method StepCreate(wares: Wares, event: Event, ghost ware: int) returns (ghost lost: nat)
      requires Valid(wares) && EventOk(event) && event.Create?
      modifies this
      ensures Valid(wares)
      ensures Money(accounts, offers, fees) == Money(old(accounts), old(offers), old(fees))
      ensures AllGoods(accounts, offers, ware) + lost == AllGoods(old(accounts), old(offers), ware)
      ensures Whole(wares, ware) && !FailsToLoad(event) ==> lost == 0
      ensures Happened(wares, old(Now()), event, Now())
    {
      var Create(p, buy, w, amount, price, fee, admitted, hasDepot) := event;
      ghost var before := if p < |accounts| then accounts[p] else Account(0, [], []);
      var ok := CreateOffer(wares, p, buy, w, amount, price, fee, admitted, hasDepot);
      lost := 0;
      if ok && !buy && w == ware {
        assert AccountOk(wares, old(accounts)[p], old(nextId));
        CostCovers(wares, before, old(nextId), w, amount);
        lost := Excess(wares, before, w, amount);
      }
    }

    method StepAccept(wares: Wares, event: Event, ghost ware: int) returns (ghost lost: nat)
      requires Valid(wares) && event.Accept?
      modifies this
      ensures Valid(wares)
      ensures Money(accounts, offers, fees) == Money(old(accounts), old(offers), old(fees))
      ensures AllGoods(accounts, offers, ware) + lost == AllGoods(old(accounts), old(offers), ware)
      ensures Whole(wares, ware) && !FailsToLoad(event) ==> lost == 0
      ensures Happened(wares, old(Now()), event, Now())
    {
      var Accept(p, k, amount, hasDepot, buyerLoads) := event;
      ghost var rows := offers;
      ghost var before := if p < |accounts| then accounts[p] else Account(0, [], []);
      var ok, created := AcceptOffer(wares, p, k, amount, hasDepot, buyerLoads);
      lost := 0;
      if ok && rows[k].buy && rows[k].ware == ware {
        assert AccountOk(wares, old(accounts)[p], old(nextId));
        CostCovers(wares, before, old(nextId), ware, amount);
        lost := Excess(wares, before, ware, amount);
      }
    }

    method StepExpire(wares: Wares, event: Event, ghost ware: int) returns (ghost lost: nat)
      requires Valid(wares) && event.Expire?
      modifies this
      ensures Valid(wares)
      ensures Money(accounts, offers, fees) == Money(old(accounts), old(offers), old(fees))
      ensures AllGoods(accounts, offers, ware) + lost == AllGoods(old(accounts), old(offers), ware)
      ensures Whole(wares, ware) && !FailsToLoad(event) ==> lost == 0
      ensures Happened(wares, old(Now()), event, Now())
    {
      var Expire(k, ownerLoads) := event;
      ghost var rows := offers;
      lost := 0;
      if k < |offers| {
        var gone, created := ExpireOffer(wares, k, ownerLoads);
        lost := if gone && rows[k].ware == ware then rows[k].amount else 0;
      }
    }
  }

  /** The units that n units of an offer are of a ware for sale. */
  function SoldUnits(o: Offer, ware: int, n: nat): nat { if !o.buy && o.ware == ware then n else 0 }

  lemma RowGone(wares: Wares, accounts: seq<Account>, offers: seq<Offer>, nextId: int, k: nat)
    requires AllOk(wares, accounts, offers, nextId) && k < |offers|
    ensures AllOk(wares, accounts, offers[..k] + offers[k + 1..], nextId)
  {
    var rows := offers[..k] + offers[k + 1..];
    forall j {:trigger rows[j]} | 0 <= j < |rows| ensures OfferOk(rows[j], |accounts|) {
      assert OfferOk(offers[if j < k then j else j + 1], |accounts|);
    }
  }

  lemma RowSet(wares: Wares, accounts: seq<Account>, offers: seq<Offer>, nextId: int, k: nat, o: Offer)
    requires AllOk(wares, accounts, offers, nextId) && k < |offers| && OfferOk(o, |accounts|)
    ensures AllOk(wares, accounts, offers[k := o], nextId)
  {
  }

  lemma RowNew(wares: Wares, accounts: seq<Account>, offers: seq<Offer>, nextId: int, o: Offer)
    requires AllOk(wares, accounts, offers, nextId) && OfferOk(o, |accounts|)
    ensures AllOk(wares, accounts, offers + [o], nextId)
  {
  }
}
