/** Adding items to containers and moving them between containers: splitting, merging and placing stacks. */
module ItemMoves {
  import opened Options
  import opened Forest
  import opened Stacks
  import opened Pouring
  import opened Containers

  /** An item whose pokemon count survives both readings that the caches make of it. */
  ghost predicate Portable<R>(m: World<R>, k: Cache, x: R)
    requires x in m
  {
    GainExact(k, m[x].Share(k)) && LossExact(k, m[x].Share(k))
  }

  /**
   * From m to w, n units of one kind left `source` and arrived in `target`, and nothing else that any
   * container holds changed.
   */
  ghost predicate Moved<R>(m: World<R>, w: World<R>, kind: Kind, source: Option<R>, target: R, n: int) {
    Shape(m) && Shape(w) && m.Keys <= w.Keys &&
    forall r, other {:trigger Held(w, r, Units(other))} :: r in m ==>
      Held(w, r, Units(other)) == Held(m, r, Units(other)) +
        if other != kind then 0 else (if r == target then n else 0) - if source == Some(r) then n else 0
  }

  /** Kind, place and capacity are what they were. */
  ghost predicate SamePlace<R>(a: Node<R>, b: Node<R>) {
    b.kind == a.kind && b.parent == a.parent && b.isContainer == a.isContainer && b.capacity == a.capacity
  }

  /** A stack of n units that is new in w, and lies in c. */
  ghost predicate NewStack<R>(m: World<R>, w: World<R>, c: R, z: R, kind: Kind, n: int) {
    && z !in m && z in w && w[z].kind == kind && w[z].count == n && w[z].parent == Some(c)
    && !w[z].isContainer && w[z].items == []
  }

  /** In w, c holds the given items, and in front of them one new stack of n units when there are any. */
  ghost predicate Fronted<R>(m: World<R>, w: World<R>, c: R, items: seq<R>, kind: Kind, n: int)
    requires c in w
  {
    if n <= 0 then w[c].items == items
    else w[c].items != [] && w[c].items[1..] == items && NewStack(m, w, c, w[c].items[0], kind, n)
  }

  /** What adding to c leaves of an item: its place, its contents unless it is c, and its count unless it lies in c. */
  ghost predicate GrownAt<R>(m: World<R>, w: World<R>, c: R, r: R)
    requires r in m && r in w
  {
    && SamePlace(m[r], w[r]) && (m[r].parent != Some(c) ==> w[r].count == m[r].count)
    && (r != c ==> w[r].items == m[r].items)
  }

  ghost predicate AllGrown<R>(m: World<R>, w: World<R>, c: R) {
    m.Keys <= w.Keys && forall r {:trigger GrownAt(m, w, c, r)} :: r in m ==> GrownAt(m, w, c, r)
  }

  /** A container never grows past its capacity, unless it was already larger. */
  ghost function Bound<R>(c: Node<R>): nat {
    if |c.items| > c.capacity then |c.items| else c.capacity
  }

  ghost function AmountOf<R>(n: Node<R>): nat {
    if n.kind.stackable then n.count else 1
  }

  /** Does the whole item fit into c? */
  ghost predicate CanAdd(m: World<Item>, c: Item, x: Item)
    requires Shape(m) && c in m && x in m
  {
    && m[x].kind.pickupable && !Within(m, c, x)
    && Room(m, c, WHEREEVER, x) >= AmountOf(m[x])
  }

  /** Whether, and if not why not, the whole of x can be added to c. */
  ghost function AddAnswer(m: World<Item>, c: Item, x: Item): ReturnValue
    requires Shape(m) && c in m && x in m
  {
    if !m[x].kind.pickupable then CannotPickup
    else if Within(m, c, x) then ThisIsImpossible
    else if CanAdd(m, c, x) then NoError
    else ContainerNotEnoughRoom
  }

  lemma NoGap(m: World<Item>, c: Item, x: Item)
    requires Shape(m) && c in m && x in m && Linked(m, c)
    requires forall j :: 0 <= j < |m[c].items| ==> !Mergeable(m, x, m[c].items[j])
    ensures Held(m, c, Gap(x, m[x].kind)) == 0
  {
    NoGapIn(m, m[c].items, x);
  }

  lemma {:induction false} NoGapIn(m: World<Item>, s: seq<Item>, x: Item)
    requires x in m && forall j :: 0 <= j < |s| ==> s[j] in m && !Mergeable(m, x, s[j])
    ensures Tally(m, s, Gap(x, m[x].kind)) == 0
  {
    if s != [] {
      NoGapIn(m, s[1..], x);
      assert !Mergeable(m, x, s[0]);
    }
  }

  ghost predicate CachesKept<R>(m: World<R>, w: World<R>) {
    Shape(m) && Shape(w) && forall k: Cache {:trigger CachesOk(w, k)} :: CachesOk(m, k) ==> CachesOk(w, k)
  }

  ghost predicate ToppedUp(m: World<Item>, w: World<Item>, c: Item, stack: Item, n: nat) {
    && stack in m && CanUpdate(m, c, stack, m[stack].kind)
    && w == RewriteWorld(m, c, stack, m[stack].kind, m[stack].count + n, true)
  }

  /** n units came into c, all of them into one of its stacks. */
  ghost predicate Topped(m: World<Item>, w: World<Item>, c: Item, stack: Item, n: nat) {
    && stack in m && w.Keys == m.Keys && Moved(m, w, m[stack].kind, None, c, n) && StacksOk(w) && CachesKept(m, w)
    && w[stack].Strip() == m[stack].Strip().(count := m[stack].count + n)
    && (forall r {:trigger w[r]} :: r in m && r != stack ==> w[r].Strip() == m[r].Strip())
  }

  /** Topping up a stack held by c. */
  method TopUp(c: Item, stack: Item, n: nat, ghost S: set<Item>)
    requires c in S && stack in S && Shape(Snap(S)) && StacksOk(Snap(S)) && c.isContainer
    requires stack in c.itemlist && stack.kind.stackable && stack.count + n <= stack.kind.maxCount
    modifies S
    ensures Topped(old(Snap(S)), Snap(S), c, stack, n)
    ensures ToppedUp(old(Snap(S)), Snap(S), c, stack, n)
  {
    ghost var m := Snap(S);
    assert Linked(m, stack);
    ghost var kind, count := stack.kind, stack.count + n;
    c.UpdateThing(stack, stack.kind, stack.count + n, S);
    ghost var w := Snap(S);
    assert w == RewriteWorld(m, c, stack, kind, count, true);
    RewriteMoved(m, c, stack, kind, count, true, w, n);
    StackKeepsCaches(m, c, stack, kind, count, true, w);
  }

  lemma UnitsRewritten(m: World<Item>, c: Item, x: Item, kind: Kind, count: nat, signedByte: bool, w: World<Item>,
                       d: int, r: Item, other: Kind)
    requires CanUpdate(m, c, x, kind) && w == RewriteWorld(m, c, x, kind, count, signedByte) && r in m
    requires kind == m[x].kind && kind.stackable && d == count - m[x].count
    ensures Held(w, r, Units(other)) == Held(m, r, Units(other)) + if other == kind && r == c then d else 0
  {
    RewriteStacks(m, c, x, kind, count, signedByte, w);
    RewriteHeld(m, c, x, kind, count, signedByte, w, r, Units(other));
  }

  /** A stack whose count changes in place: its container holds the difference more, and nothing else changes. */
  lemma RewriteMoved(m: World<Item>, c: Item, x: Item, kind: Kind, count: nat, signedByte: bool, w: World<Item>, d: int)
    requires CanUpdate(m, c, x, kind) && w == RewriteWorld(m, c, x, kind, count, signedByte)
    requires kind == m[x].kind && kind.stackable && d == count - m[x].count
    ensures Moved(m, w, kind, None, c, d)
    ensures StacksOk(m) && 1 <= count <= kind.maxCount ==> StacksOk(w)
  {
    forall r, other | r in m
      ensures Held(w, r, Units(other)) == Held(m, r, Units(other)) + if other == kind && r == c then d else 0
    {
      UnitsRewritten(m, c, x, kind, count, signedByte, w, d, r, other);
    }
    if StacksOk(m) && 1 <= count <= kind.maxCount {
      RewriteStacksOk(m, c, x, kind, count, signedByte, w);
    }
  }

  lemma RewriteStacksOk(m: World<Item>, c: Item, x: Item, kind: Kind, count: nat, signedByte: bool, w: World<Item>)
    requires CanUpdate(m, c, x, kind) && w == RewriteWorld(m, c, x, kind, count, signedByte)
    requires StacksOk(m) && 1 <= count <= kind.maxCount
    ensures StacksOk(w)
  {
    RewriteStacks(m, c, x, kind, count, signedByte, w);
    StacksStay(m, w, x);
  }

  lemma StacksStay(m: World<Item>, w: World<Item>, x: Item)
    requires StacksOk(m) && w.Keys == m.Keys && x in m
    requires w[x].kind.stackable ==> 1 <= w[x].count <= w[x].kind.maxCount
    requires forall y {:trigger w[y]} :: y in m && y != x ==> w[y].kind == m[y].kind && w[y].count == m[y].count
    ensures StacksOk(w)
  {
    forall y | y in w && w[y].kind.stackable ensures 1 <= w[y].count <= w[y].kind.maxCount {
      assert y != x ==> m[y].kind == w[y].kind;
    }
  }

  /** Placing a parentless item in front of c's items. */
  method Place(c: Item, index: int, item: Item, ghost S: set<Item>)
    requires c in S && item in S && CanAttach(Snap(S), c, item, 0) && StacksOk(Snap(S)) && index < c.capacity
    modifies S
    ensures var m, w := old(Snap(S)), Snap(S);
      && w.Keys == m.Keys && Moved(m, w, m[item].kind, None, c, AmountOf(m[item])) && StacksOk(w)
      && w[c].Strip() == m[c].Strip().(items := [item] + m[c].items)
      && w[item].Strip() == m[item].Strip().(parent := Some(c))
      && (forall r {:trigger w[r]} :: r in m && r != c && r != item ==> w[r].Strip() == m[r].Strip())
    ensures forall k: Cache {:trigger CachesOk(Snap(S), k)} ::
      old(CachesOk(Snap(S), k) && GainExact(k, Snap(S)[item].Share(k))) ==> CachesOk(Snap(S), k)
  {
    ghost var m := Snap(S);
    c.AddThing(index, item, S);
    ghost var w := Snap(S);
    PlaceMoved(m, w, c, item);
    forall k: Cache | CachesOk(m, k) && GainExact(k, m[item].Share(k)) ensures CachesOk(w, k) {
      AddCaches(m, k, c, item, 0);
    }
  }

  lemma PlaceMoved(m: World<Item>, w: World<Item>, c: Item, x: Item)
    requires CanAttach(m, c, x, 0) && w == AddItem(m, c, x, 0)
    ensures Moved(m, w, m[x].kind, None, c, AmountOf(m[x]))
    ensures StacksOk(m) ==> StacksOk(w)
    ensures w[c].Strip() == m[c].Strip().(items := [x] + m[c].items)
  {
    assert m[c].items[..0] + [x] + m[c].items[0..] == [x] + m[c].items;
    AddStacks(m, c, x, w);
    forall r, other | r in m
      ensures Held(w, r, Units(other)) == Held(m, r, Units(other)) +
        if other == m[x].kind && r == c then AmountOf(m[x]) else 0
    {
      AddHeld(m, c, x, w, r, Units(other));
    }
  }

  lemma MovedThen(m: World<Item>, u: World<Item>, w: World<Item>, kind: Kind, target: Item, a: int, b: int, n: int)
    requires n == a + b && Moved(m, u, kind, None, target, a) && Moved(u, w, kind, None, target, b)
    ensures Moved(m, w, kind, None, target, n)
  {
    forall r, other | r in m
      ensures Held(w, r, Units(other)) == Held(m, r, Units(other)) + if other == kind && r == target then n else 0
    {
      assert r in u;
    }
  }

  lemma GapOfAnother(w: World<Item>, c: Item, kind: Kind, x: Item, z: Item)
    requires Shape(w) && c in w && Linked(w, c) && x !in w[c].items && z !in w[c].items
    ensures Held(w, c, Gap(z, kind)) == Held(w, c, Gap(x, kind))
  {
    SameGap(w, w[c].items, kind, x, z);
  }

  lemma {:induction false} SameGap(w: World<Item>, s: seq<Item>, kind: Kind, x: Item, z: Item)
    requires x !in s && z !in s && forall i :: 0 <= i < |s| ==> s[i] in w
    ensures Tally(w, s, Gap(z, kind)) == Tally(w, s, Gap(x, kind))
  {
    if s != [] {
      assert s[0] != x && s[0] != z;
      SameGap(w, s[1..], kind, x, z);
    }
  }

  /** Room in c for n units that lie elsewhere; c itself stands for the item that is not among its own. */
  ghost predicate RoomFor(m: World<Item>, c: Item, kind: Kind, n: nat)
    requires Shape(m) && c in m
  {
    FreeSlots(m[c]) * kind.maxCount + Held(m, c, Gap(c, kind)) >= n
  }

  lemma RoomForDetached(m: World<Item>, c: Item, x: Item)
    requires Shape(m) && c in m && m[c].isContainer && x in m && m[x].parent.None?
    requires m[x].kind.stackable && m[x].kind.pickupable
    ensures CanAdd(m, c, x) <==> RoomFor(m, c, m[x].kind, m[x].count)
  {
    assert Linked(m, c);
    assert c !in m[c].items && x !in m[c].items;
    GapOfAnother(m, c, m[x].kind, x, c);
    WithinIsContainer(m, c, x);
  }

  /** After n units went into a stack of c, the room for its kind shrank by n. */
  lemma RoomAfterTopUp(m: World<Item>, w: World<Item>, c: Item, y: Item, n: nat, kind: Kind)
    requires ToppedUp(m, w, c, y, n) && m[y].kind == kind
    requires m[y].count < kind.maxCount && m[y].count + n <= kind.maxCount
    ensures c in m && c in w && w[c].Strip() == m[c].Strip() && FreeSlots(w[c]) == FreeSlots(m[c])
    ensures Held(w, c, Gap(c, kind)) == Held(m, c, Gap(c, kind)) - n
  {
    ParentOf(m, y);
    var count := m[y].count + n;
    assert w[y].Strip() == m[y].Strip().(kind := kind, count := count);
    assert w[y].kind == kind && w[y].count == count;
    RewriteHeld(m, c, y, kind, count, true, w, c, Gap(c, kind));
    assert w[c].items == m[c].items && w[c].capacity == m[c].capacity;
  }

  /** `clone` of a stack, with its count set. */
  method Clone(kind: Kind, count: nat, ghost S: set<Item>) returns (r: Item, ghost S': set<Item>)
    requires Shape(Snap(S))
    ensures fresh(r) && S' == S + {r} && Snap(S) == old(Snap(S)) && r !in S
    ensures NodeOf(r) == Node(kind, count, None, false, 0, [], 0, 0, 0)
    ensures Snap(S')[r] == NodeOf(r) && Born(Snap(S), r, NodeOf(r), Snap(S'))
  {
    r := new Item(kind, count, false, 0);
    S' := S + {r};
    assert Snap(S') == Snap(S)[r := NodeOf(r)];
  }

  /**
   * n units of a kind came into c, from outside the world: they filled its stacks from the first on, and what they
   * did not take is a new stack in front. Nothing else that any container holds changed.
   */
  ghost predicate Grew(m: World<Item>, w: World<Item>, c: Item, kind: Kind, n: nat) {
    && Moved(m, w, kind, None, c, n) && CachesKept(m, w) && StacksOk(w) && AllGrown(m, w, c)
    && AllPoured(m, w, c, kind, n) && Fronted(m, w, c, m[c].items, kind, n - GapOf(m, c, kind))
    && |w[c].items| <= Bound(m[c])
  }

  /** The first stack took all. */
  lemma GrewInOne(m: World<Item>, u: World<Item>, c: Item, kind: Kind, y: Item, j: nat, n: nat)
    requires Shape(m) && c in m && Topped(m, u, c, y, n) && kind.stackable && m[y].kind == kind
    requires j < |m[c].items| && m[c].items[j] == y && GapBefore(m, c, kind, j) == 0
    requires m[y].count < kind.maxCount && m[y].count + n <= kind.maxCount
    ensures Grew(m, u, c, kind, n)
  {
    ToppedAll(m, u, c, y, j, n);
    PouredOnce(m, u, c, kind, j, n);
    assert u[c].items == m[c].items;
  }

  /** The first stack was filled, and then c grew by the rest. */
  lemma GrewInTwo(m: World<Item>, u: World<Item>, w: World<Item>, c: Item, kind: Kind, y: Item, j: nat, n: nat,
                  rest: nat, total: nat)
    requires Shape(m) && c in m && Topped(m, u, c, y, n) && kind.stackable && m[y].kind == kind
    requires j < |m[c].items| && m[c].items[j] == y && GapBefore(m, c, kind, j) == 0
    requires m[y].count < kind.maxCount && m[y].count + n == kind.maxCount
    requires rest > 0 && total == n + rest && Grew(u, w, c, kind, rest)
    ensures Grew(m, w, c, kind, total)
  {
    ToppedAll(m, u, c, y, j, n);
    PouredTwice(m, u, w, c, kind, j, n, rest, total);
    MovedThen(m, u, w, kind, c, n, rest, total);
    AllGrownTwice(m, u, w, c);
    assert u[c].items == m[c].items && u[c].capacity == m[c].capacity;
    assert Fronted(u, w, c, m[c].items, kind, total - GapOf(m, c, kind));
    forall k: Cache | CachesOk(m, k) ensures CachesOk(w, k) {
      assert CachesOk(u, k);
    }
  }

  lemma AllGrownTwice<R>(m: World<R>, u: World<R>, w: World<R>, c: R)
    requires AllGrown(m, u, c) && AllGrown(u, w, c)
    ensures AllGrown(m, w, c)
  {
    forall r | r in m ensures GrownAt(m, w, c, r) {
      assert GrownAt(m, u, c, r) && GrownAt(u, w, c, r);
    }
  }

  lemma ToppedAll(m: World<Item>, u: World<Item>, c: Item, y: Item, j: nat, n: nat)
    requires Shape(m) && c in m && Topped(m, u, c, y, n)
    requires j < |m[c].items| && m[c].items[j] == y
    ensures AllGrown(m, u, c) && OneChanged(m, u, c, j) && u[y].count == m[y].count + n
    ensures c != y && u[c].items == m[c].items && u[c].capacity == m[c].capacity
  {
    assert Linked(m, c);
    assert u[c].Strip() == m[c].Strip();
    forall r | r in m ensures GrownAt(m, u, c, r) {
      assert r != y ==> u[r].Strip() == m[r].Strip();
      assert u[y].Strip() == m[y].Strip().(count := m[y].count + n);
    }
  }

  /** The added item itself goes in front, unless it is a stack and others of its kind take some of it. */
  ghost predicate AddedItem(m: World<Item>, w: World<Item>, c: Item, x: Item)
    requires Shape(m) && x in m && x in w && c in m && c in w
  {
    if m[x].kind.stackable && GapOf(m, c, m[x].kind) > 0 then
      && w[x].Strip() == m[x].Strip()
      && Fronted(m, w, c, m[c].items, m[x].kind, m[x].count - GapOf(m, c, m[x].kind))
    else
      w[c].items == [x] + m[c].items && w[x].Strip() == m[x].Strip().(parent := Some(c))
  }

  /** The whole of x went into c: into the stacks of its kind from the first on, or in front. All else is as it was. */
  ghost predicate Added(m: World<Item>, w: World<Item>, c: Item, x: Item) {
    && x in m && c in m && Moved(m, w, m[x].kind, None, c, AmountOf(m[x])) && AddedItem(m, w, c, x)
    && (forall r {:trigger GrownAt(m, w, c, r)} :: r in m && r != x ==> GrownAt(m, w, c, r))
    && AllPoured(m, w, c, m[x].kind, if m[x].kind.stackable then m[x].count else 0)
    && StacksOk(w) && |w[c].items| <= Bound(m[c])
    && (forall k: Cache {:trigger CachesOk(w, k)} ::
          CachesOk(m, k) && GainExact(k, m[x].Share(k)) ==> CachesOk(w, k))
  }

  lemma StackIsGainExact(m: World<Item>, w: World<Item>, c: Item, x: Item)
    requires Shape(m) && x in m && m[x].kind.stackable && Added(m, w, c, x)
    ensures Moved(m, w, m[x].kind, None, c, m[x].count) && CachesKept(m, w) && StacksOk(w)
  {
    assert Linked(m, x);
    forall k: Cache | CachesOk(m, k) ensures CachesOk(w, k) {
      assert GainExact(k, m[x].Share(k));
    }
  }

  /** Where `queryAdd` refuses, the item does not fit. */
  lemma Refused(m: World<Item>, c: Item, x: Item, i: int, y: Item?)
    requires Shape(m) && StacksOk(m) && c in m && x in m && m[x].parent.None?
    requires Settled(m, c, WHEREEVER, x, i, y) && QueryAddAnswer(m, c, i, x) != NoError
    ensures QueryAddAnswer(m, c, i, x) == AddAnswer(m, c, x)
  {
    assert Linked(m, c);
    if i == WHEREEVER && m[x].kind.stackable {
      NoGap(m, c, x);
    }
  }

  /** The branch of `internalAddItem` that tops up the first stack with room and adds what is left as a new item. */
  method MergeAndAdd(to: Item, kind: Kind, toItem: Item, amount: nat, ghost j: nat, ghost S: set<Item>)
    returns (ghost S': set<Item>)
    requires to in S && toItem in S && Shape(Snap(S)) && StacksOk(Snap(S)) && to.isContainer
    requires kind.stackable && kind.pickupable && 1 <= amount <= kind.maxCount && RoomFor(Snap(S), to, kind, amount)
    requires toItem.kind == kind && toItem.count < kind.maxCount
    requires j < |to.itemlist| && to.itemlist[j] == toItem && GapBefore(Snap(S), to, kind, j) == 0
    modifies S
    ensures S <= S' && forall o :: o in S' && o !in S ==> fresh(o)
    ensures Grew(old(Snap(S)), Snap(S'), to, kind, amount)
    decreases amount, 1
  {
    ghost var m := Snap(S);
    assert Linked(m, to) && toItem != to;
    // a stack that can be merged into takes at least one unit, so what is left is never the whole item
    var n := if kind.maxCount - toItem.count < amount then kind.maxCount - toItem.count else amount;
    var rest := amount - n;
    TopUp(to, toItem, n, S);
    ghost var u := Snap(S);
    if rest == 0 {
      GrewInOne(m, u, to, kind, toItem, j, n);
      return S;
    }
    RoomAfterTopUp(m, u, to, toItem, n, kind);
    S' := AddRemainder(to, kind, rest, S);
    GrewInTwo(m, u, Snap(S'), to, kind, toItem, j, n, rest, amount);
  }

  method AddRemainder(to: Item, kind: Kind, count: nat, ghost S: set<Item>) returns (ghost S': set<Item>)
    requires to in S && Shape(Snap(S)) && StacksOk(Snap(S)) && to.isContainer
    requires kind.stackable && kind.pickupable && 1 <= count <= kind.maxCount && RoomFor(Snap(S), to, kind, count)
    modifies S
    ensures S <= S' && forall o :: o in S' && o !in S ==> fresh(o)
    ensures Grew(old(Snap(S)), Snap(S'), to, kind, count)
    decreases count, 3
  {
    ghost var m := Snap(S);
    var remainder;
    remainder, S' := Clone(kind, count, S);
    ghost var v := Snap(S');
    BornKeeps(m, remainder, v[remainder], v);
    assert Held(v, to, Gap(to, kind)) == Held(m, to, Gap(to, kind));
    RoomForDetached(v, to, remainder);
    var ret;
    ret, S' := InternalAddItem(to, remainder, S');
    BornGrows(m, v, Snap(S'), to, remainder, kind, count);
  }

  lemma BornGrows(m: World<Item>, v: World<Item>, w: World<Item>, c: Item, x: Item, kind: Kind, n: nat)
    requires Shape(m) && c in m && x in v && Born(m, x, v[x], v) && Shape(v) && v[x].kind == kind && v[x].count == n
    requires kind.stackable && !v[x].isContainer && n > 0 && Added(v, w, c, x)
    ensures Grew(m, w, c, kind, n)
  {
    BornKeeps(m, x, v[x], v);
    StackIsGainExact(v, w, c, x);
    forall r | r in m ensures GrownAt(m, w, c, r) {
      assert GrownAt(v, w, c, r);
    }
    forall r, other | r in m
      ensures Held(w, r, Units(other)) == Held(m, r, Units(other)) + if other == kind && r == c then n else 0
    {
      assert Held(v, r, Units(other)) == Held(m, r, Units(other));
    }
    forall k: Cache | CachesOk(m, k) ensures CachesOk(w, k) {
      assert CachesOk(v, k);
    }
    BornPours(m, v, w, c, x, kind, n);
    BornFronts(m, v, w, c, x, kind, n);
  }

  lemma BornPours(m: World<Item>, v: World<Item>, w: World<Item>, c: Item, x: Item, kind: Kind, n: nat)
    requires Shape(m) && c in m && x in v && Born(m, x, v[x], v) && AllPoured(v, w, c, kind, n)
    ensures AllPoured(m, w, c, kind, n)
  {
    assert Linked(m, c);
    forall i | 0 <= i < |m[c].items| ensures PouredAt(m, w, c, kind, n, i) {
      assert PouredAt(v, w, c, kind, n, i);
      TallyMatch(m, v, m[c].items[..i], Gap(c, kind));
    }
  }

  lemma BornFronts(m: World<Item>, v: World<Item>, w: World<Item>, c: Item, x: Item, kind: Kind, n: nat)
    requires Shape(m) && c in m && x in v && Born(m, x, v[x], v) && Shape(v) && v[x].kind == kind && v[x].count == n
    requires kind.stackable && !v[x].isContainer && n > 0 && x in w && c in w && AddedItem(v, w, c, x)
    ensures Fronted(m, w, c, m[c].items, kind, n - GapOf(m, c, kind))
  {
    BornKeeps(m, x, v[x], v);
    assert GapOf(v, c, kind) == GapOf(m, c, kind);
    GapGrows(m, c, kind, 0, |m[c].items|);
    GapAll(m, c, kind);
    if GapOf(m, c, kind) == 0 {
      assert w[c].items == [x] + m[c].items && ([x] + m[c].items)[1..] == m[c].items;
    }
  }

  lemma MergedIsAdded(m: World<Item>, w: World<Item>, c: Item, x: Item)
    requires Shape(m) && x in m && m[x].parent.None? && m[x].kind.stackable && c in m && m[c].isContainer
    requires Grew(m, w, c, m[x].kind, m[x].count) && GapOf(m, c, m[x].kind) > 0
    ensures Added(m, w, c, x)
  {
    assert Linked(m, x) && Linked(m, c);
    assert GrownAt(m, w, c, x);
    assert w[x].Strip() == m[x].Strip();
  }

  /** The branch of `internalAddItem` that adds the item as it is. */
  method AddWhole(to: Item, index: int, item: Item, ghost S: set<Item>)
    requires to in S && item in S && CanAttach(Snap(S), to, item, 0) && StacksOk(Snap(S)) && index < to.capacity
    requires |to.itemlist| < to.capacity && (item.kind.stackable ==> GapOf(Snap(S), to, item.kind) == 0)
    modifies S
    ensures Added(old(Snap(S)), Snap(S), to, item)
  {
    ghost var m := Snap(S);
    Place(to, index, item, S);
    PlacedGrows(m, Snap(S), to, item);
  }

  /**
   * `internalAddItem` at INDEX_WHEREEVER: all or nothing. It succeeds exactly when the whole item fits; then
   * the container holds exactly that much more of the kind. Its stacks are filled from the first on, and only what
   * they do not take is a new item in front. Nothing else changed in any container.
   */
  method InternalAddItem(to: Item, item: Item, ghost S: set<Item>) returns (ret: ReturnValue, ghost S': set<Item>)
    requires to in S && item in S && Shape(Snap(S)) && StacksOk(Snap(S)) && to.isContainer && item.parent == null
    modifies S
    ensures S <= S' && forall o :: o in S' && o !in S ==> fresh(o)
    ensures ret == old(AddAnswer(Snap(S), to, item))
    ensures ret != NoError ==> S' == S && Snap(S) == old(Snap(S))
    ensures ret == NoError ==> Added(old(Snap(S)), Snap(S'), to, item)
    decreases item.count, 2
  {
    ghost var m := Snap(S);
    S' := S;
    var cylinder, index, toItem := to.QueryDestination(WHEREEVER, item, S);
    assert Linked(m, to) && cylinder == to;
    ret := cylinder.QueryAdd(index, item, S);
    if ret != NoError {
      Refused(m, to, item, index, toItem);
      return;
    }
    var maxQueryCount;
    ret, maxQueryCount := to.QueryMaxCount(WHEREEVER, item, item.count, S);
    if ret != NoError {
      return;
    }
    if item.kind.stackable && toItem != null && toItem.kind == item.kind {
      var amount := if item.count < maxQueryCount then item.count else maxQueryCount;
      RoomForDetached(m, to, item);
      FirstGap(m, to, item, index);
      S' := MergeAndAdd(cylinder, item.kind, toItem, amount, index, S);
      MergedIsAdded(m, Snap(S'), to, item);
    } else {
      NothingTakes(m, to, item, index, toItem);
      AddWhole(cylinder, index, item, S);
    }
  }

  /** The first stack that x merges into is the first with a gap. */
  lemma FirstGap(m: World<Item>, c: Item, x: Item, i: nat)
    requires Shape(m) && c in m && x in m && m[x].parent.None? && i < |m[c].items| && m[c].items[i] in m
    requires Mergeable(m, x, m[c].items[i])
    requires forall j :: 0 <= j < i ==> m[c].items[j] in m && !Mergeable(m, x, m[c].items[j])
    ensures GapBefore(m, c, m[x].kind, i) == 0 && GapOf(m, c, m[x].kind) > 0
  {
    assert Linked(m, c);
    var s := m[c].items[..i];
    NoGapIn(m, s, x);
    SameGap(m, s, m[x].kind, x, c);
    GapNext(m, c, m[x].kind, i);
    GapGrows(m, c, m[x].kind, i + 1, |m[c].items|);
    GapAll(m, c, m[x].kind);
  }

  /** Where the destination is no stack to merge into, none takes any of x. */
  lemma NothingTakes(m: World<Item>, c: Item, x: Item, i: int, y: Item?)
    requires Shape(m) && c in m && x in m && m[x].parent.None? && Settled(m, c, WHEREEVER, x, i, y)
    requires !(m[x].kind.stackable && y != null && y in m && m[y].kind == m[x].kind)
    ensures m[x].kind.stackable ==> GapOf(m, c, m[x].kind) == 0
  {
    assert Linked(m, c);
    if m[x].kind.stackable {
      NoGap(m, c, x);
      assert x !in m[c].items;
      GapOfAnother(m, c, m[x].kind, x, c);
    }
  }

  lemma PlacedGrows(m: World<Item>, w: World<Item>, c: Item, x: Item)
    requires Shape(m) && c in m && x in m && w.Keys == m.Keys && c != x && m[x].parent.None?
    requires w[c].Strip() == m[c].Strip().(items := [x] + m[c].items)
    requires forall r {:trigger w[r]} :: r in m && r != c && r != x ==> w[r].Strip() == m[r].Strip()
    requires m[x].kind.stackable ==> GapOf(m, c, m[x].kind) == 0
    ensures forall r {:trigger GrownAt(m, w, c, r)} :: r in m && r != x ==> GrownAt(m, w, c, r)
    ensures AllPoured(m, w, c, m[x].kind, if m[x].kind.stackable then m[x].count else 0)
  {
    assert Linked(m, c);
    forall r | r in m && r != x ensures GrownAt(m, w, c, r) {
      assert r != c ==> w[r].Strip() == m[r].Strip();
    }
    var n := if m[x].kind.stackable then m[x].count else 0;
    forall i | 0 <= i < |m[c].items| ensures PouredAt(m, w, c, m[x].kind, n, i) {
      NothingPoured(m, w, c, m[x].kind, n, i);
    }
  }

  lemma NothingPoured(m: World<Item>, w: World<Item>, c: Item, kind: Kind, n: int, i: nat)
    requires Shape(m) && c in m && i < |m[c].items| && m.Keys <= w.Keys && (n == 0 || GapOf(m, c, kind) == 0)
    requires m[c].items[i] in m && w[m[c].items[i]].Strip() == m[m[c].items[i]].Strip()
    ensures PouredAt(m, w, c, kind, n, i)
  {
    GapGrows(m, c, kind, 0, i);
    GapNext(m, c, kind, i);
    GapGrows(m, c, kind, i + 1, |m[c].items|);
    GapAll(m, c, kind);
  }

  // ---------- moving ----------

  /** The items without x. */
  function Drop<R(==)>(s: seq<R>, x: R): seq<R> {
    if s == [] then [] else if s[0] == x then s[1..] else [s[0]] + Drop(s[1..], x)
  }

  lemma {:induction false} DropAt<R>(s: seq<R>, i: nat, x: R)
    requires i < |s| && s[i] == x && forall j :: 0 <= j < i ==> s[j] != x
    ensures Drop(s, x) == s[..i] + s[i + 1..]
  {
    if i > 0 {
      DropAt(s[1..], i - 1, x);
      assert s[..i] == [s[0]] + s[1..][..i - 1] && s[1..][i..] == s[i + 1..];
    }
  }

  /** Does taking n units of x take x itself? */
  ghost predicate TakesAll<R>(m: World<R>, x: R, n: nat)
    requires x in m
  {
    !m[x].kind.stackable || n == m[x].count
  }

  /** What r holds when n units of x have left `from`. */
  ghost function Rest<R>(m: World<R>, from: R, x: R, n: nat, r: R): seq<R>
    requires x in m && r in m
  {
    if r == from && TakesAll(m, x, n) then Drop(m[r].items, x) else m[r].items
  }

  /** What taking n units of x out of `from` leaves of an item. */
  ghost predicate TakenAt<R>(m: World<R>, w: World<R>, from: R, x: R, n: nat, r: R)
    requires x in m && r in m && r in w
  {
    && w[r].kind == m[r].kind && w[r].isContainer == m[r].isContainer && w[r].capacity == m[r].capacity
    && w[r].parent == (if r == x && TakesAll(m, x, n) then None else m[r].parent)
    && w[r].count == (if r == x && !TakesAll(m, x, n) then m[r].count - n else m[r].count)
    && w[r].items == Rest(m, from, x, n, r)
  }

  ghost predicate AllTaken<R>(m: World<R>, w: World<R>, from: R, x: R, n: nat) {
    && x in m && m.Keys <= w.Keys
    && forall r {:trigger TakenAt(m, w, from, x, n, r)} :: r in m ==> TakenAt(m, w, from, x, n, r)
  }

  /** What the stack y at the slot takes of a kind: nothing when there is none, or it is of another kind or full. */
  ghost function GapAt<R>(m: World<R>, y: Option<R>, kind: Kind): nat {
    if y.Some? && y.value in m && m[y.value].kind == kind && kind.stackable && m[y.value].count < kind.maxCount
    then kind.maxCount - m[y.value].count
    else 0
  }

  /** What r takes when n units go into the stack y first. */
  ghost function TakenUp<R>(m: World<R>, y: Option<R>, kind: Kind, n: nat, r: R): nat {
    if Some(r) == y then (if n < GapAt(m, y, kind) then n else GapAt(m, y, kind)) else 0
  }

  /**
   * What a whole move leaves of an item: only x, the stack y it went into and the two containers change. The stack y
   * is filled first, and what it does not take stands in front as a new stack; any other item comes to the front.
   */
  ghost predicate TransferredAt<R>(m: World<R>, w: World<R>, from: R, dest: R, x: R, y: Option<R>, n: nat, r: R)
    requires x in m && r in m && r in w
  {
    && w[r].kind == m[r].kind && w[r].isContainer == m[r].isContainer && w[r].capacity == m[r].capacity
    && w[r].parent ==
      (if r != x || !TakesAll(m, x, n) then m[r].parent else if m[x].kind.stackable then None else Some(dest))
    && w[r].count == (if r == x && !TakesAll(m, x, n) then m[r].count - n
                      else m[r].count + TakenUp(m, y, m[x].kind, n, r))
    && (if r != dest then w[r].items == Rest(m, from, x, n, r)
        else if m[x].kind.stackable then
          Fronted(m, w, dest, Rest(m, from, x, n, r), m[x].kind, n - GapAt(m, y, m[x].kind))
        else w[r].items == [x] + Rest(m, from, x, n, r))
  }

  ghost predicate AllTransferred<R>(m: World<R>, w: World<R>, from: R, dest: R, x: R, y: Option<R>, n: nat) {
    && x in m && m.Keys <= w.Keys
    && (forall r {:trigger TransferredAt(m, w, from, dest, x, y, n, r)} ::
          r in m ==> TransferredAt(m, w, from, dest, x, y, n, r))
  }

  /** What taking n units of x (the whole of it, when it is not a stack) out of its container leaves. */
  ghost predicate Taken(m: World<Item>, w: World<Item>, from: Item, x: Item, n: nat) {
    && x in m && from in m && Moved(m, w, m[x].kind, None, from, -(if m[x].kind.stackable then n else 1))
    && w.Keys == m.Keys && StacksOk(w)
    && (forall r {:trigger w[r]} :: r in m ==>
          w[r].kind == m[r].kind && w[r].isContainer == m[r].isContainer && w[r].capacity == m[r].capacity)
    && (forall r {:trigger w[r]} :: r in m && r != x ==> w[r].count == m[r].count && w[r].parent == m[r].parent)
    && (forall r {:trigger w[r]} :: r in m && r != from ==> w[r].items == m[r].items)
    && |w[from].items| <= |m[from].items|
    && (forall y {:trigger y in w[from].items} :: y in m[from].items && y != x ==> y in w[from].items)
    && (!m[x].kind.stackable ==> w[x].parent.None? && w[x].Share(Pokemon) == m[x].Share(Pokemon))
    && (forall k: Cache {:trigger CachesOk(w, k)} :: CachesOk(m, k) && LossExact(k, m[x].Share(k)) ==> CachesOk(w, k))
    && AllTaken(m, w, from, x, n)
  }

  /** Nothing lies inside x that did not lie inside it before. */
  ghost predicate StillWithin(m: World<Item>, w: World<Item>, x: Item) {
    Shape(m) && Shape(w) && w.Keys == m.Keys &&
    forall r {:trigger Within(w, r, x)} :: r in m && Within(w, r, x) ==> Within(m, r, x)
  }

  lemma TakenWhole(m: World<Item>, w: World<Item>, from: Item, x: Item, i: nat)
    requires Shape(m) && StacksOk(m) && from in m && i < |m[from].items| && m[from].items[i] == x
    requires w == RemoveItem(m, from, i)
    ensures x in m && Taken(m, w, from, x, AmountOf(m[x]))
    ensures w[x].parent.None? && StillWithin(m, w, x)
  {
    forall r | r in m && Within(w, r, x) ensures Within(m, r, x) {
      WithinAfterRemove(m, from, x, i, w, r);
    }
    RemoveStacks(m, from, x, i, w);
    assert w[x].Strip() == m[x].Strip().(parent := None);
    forall r, other | r in m
      ensures Held(w, r, Units(other)) == Held(m, r, Units(other)) -
        if other == m[x].kind && r == from then AmountOf(m[x]) else 0
    {
      RemoveHeld(m, from, x, i, w, r, Units(other));
    }
    forall k: Cache | CachesOk(m, k) && LossExact(k, m[x].Share(k)) ensures CachesOk(w, k) {
      RemoveCaches(m, k, from, i);
    }
    TakenRest(m, w, from, x, i);
    TakenWholeAt(m, w, from, x, i, AmountOf(m[x]));
  }

  lemma TakenWholeAt(m: World<Item>, w: World<Item>, from: Item, x: Item, i: nat, n: nat)
    requires Shape(m) && from in m && i < |m[from].items| && m[from].items[i] == x && w == RemoveItem(m, from, i)
    requires x in m && TakesAll(m, x, n)
    ensures AllTaken(m, w, from, x, n)
  {
    var items := m[from].items;
    HeldHere(m, from, i);
    DropAt(items, i, x);
    forall r | r in m ensures TakenAt(m, w, from, x, n, r) {
      assert w[from].Strip() == m[from].Strip().(items := items[..i] + items[i + 1..]);
      assert w[x].Strip() == m[x].Strip().(parent := None);
      assert r != from && r != x ==> w[r].Strip() == m[r].Strip();
    }
  }

  lemma TakenRest(m: World<Item>, w: World<Item>, from: Item, x: Item, i: nat)
    requires Shape(m) && from in m && i < |m[from].items| && m[from].items[i] == x && w == RemoveItem(m, from, i)
    ensures forall r {:trigger w[r]} ::
      r in m ==> w[r].isContainer == m[r].isContainer && w[r].capacity == m[r].capacity
    ensures forall r {:trigger w[r]} :: r in m && r != x ==> w[r].parent == m[r].parent
    ensures forall y {:trigger y in w[from].items} :: y in m[from].items && y != x ==> y in w[from].items
    ensures !m[x].kind.stackable ==> w[x].Share(Pokemon) == m[x].Share(Pokemon)
  {
    var items := m[from].items;
    assert w[from].Strip() == m[from].Strip().(items := items[..i] + items[i + 1..]);
    assert w[x].Strip() == m[x].Strip().(parent := None);
    forall r | r in m && r != from && r != x
      ensures w[r].isContainer == m[r].isContainer && w[r].capacity == m[r].capacity && w[r].parent == m[r].parent
    {
      assert w[r].Strip() == m[r].Strip();
    }
    assert w[from].items == items[..i] + items[i + 1..];
    forall y | y in items && y != x ensures y in w[from].items {
      var j :| 0 <= j < |items| && items[j] == y;
      assert w[from].items[if j < i then j else j - 1] == y;
    }
    RemoveShare(m, from, i, x, w);
  }

  lemma RemoveShare(m: World<Item>, c: Item, i: nat, x: Item, w: World<Item>)
    requires Shape(m) && c in m && i < |m[c].items| && m[c].items[i] == x && w == RemoveItem(m, c, i)
    ensures x in m && w[x].Share(Pokemon) == m[x].Share(Pokemon)
  {
    assert Linked(m, c);
    assert m[x].depth > m[c].depth;
    var dw, dp := Loss(Weight, m[x].Share(Weight)), Loss(Pokemon, m[x].Share(Pokemon));
    var b := Bump(m, c, dw, dp);
    assert b[x] == m[x] && b[c].items == m[c].items;
    assert w[x] == b[x].(parent := None);
  }

  lemma TakenPart(m: World<Item>, w: World<Item>, from: Item, x: Item, n: nat)
    requires x in m && StacksOk(m) && CanUpdate(m, from, x, m[x].kind) && m[x].kind.stackable && 1 <= n < m[x].count
    requires w == RewriteWorld(m, from, x, m[x].kind, m[x].count - n, false)
    ensures Taken(m, w, from, x, n)
  {
    ParentOf(m, x);
    TakenPartMoved(m, w, from, x, n);
    TakenPartAt(m, w, from, x, n);
    forall r | r in m
      ensures w[r].kind == m[r].kind && w[r].isContainer == m[r].isContainer && w[r].capacity == m[r].capacity
      ensures w[r].parent == m[r].parent && w[r].items == m[r].items && (r != x ==> w[r].count == m[r].count)
    {
      assert TakenAt(m, w, from, x, n, r);
    }
  }

  lemma TakenPartMoved(m: World<Item>, w: World<Item>, from: Item, x: Item, n: nat)
    requires x in m && StacksOk(m) && CanUpdate(m, from, x, m[x].kind) && m[x].kind.stackable && 1 <= n < m[x].count
    requires w == RewriteWorld(m, from, x, m[x].kind, m[x].count - n, false)
    ensures Moved(m, w, m[x].kind, None, from, -(n as int)) && StacksOk(w) && CachesKept(m, w)
  {
    assert Linked(m, x);
    var kind, count, d := m[x].kind, m[x].count - n, -(n as int);
    RewriteMoved(m, from, x, kind, count, false, w, d);
    StackKeepsCaches(m, from, x, kind, count, false, w);
  }

  lemma StackKeepsCaches(m: World<Item>, c: Item, x: Item, kind: Kind, count: nat, signedByte: bool, w: World<Item>)
    requires CanUpdate(m, c, x, kind) && w == RewriteWorld(m, c, x, kind, count, signedByte) && !m[x].isContainer
    ensures CachesKept(m, w)
  {
    forall k: Cache | CachesOk(m, k) ensures CachesOk(w, k) {
      RewriteCaches(m, k, c, x, kind, count, signedByte);
    }
  }

  lemma TakenPartAt(m: World<Item>, w: World<Item>, from: Item, x: Item, n: nat)
    requires x in m && CanUpdate(m, from, x, m[x].kind) && m[x].kind.stackable && 1 <= n < m[x].count
    requires w == RewriteWorld(m, from, x, m[x].kind, m[x].count - n, false)
    ensures AllTaken(m, w, from, x, n)
  {
    var kind, count := m[x].kind, m[x].count - n;
    forall r | r in m ensures TakenAt(m, w, from, x, n, r) {
      assert r != x ==> w[r].Strip() == m[r].Strip();
      assert w[x].Strip() == m[x].Strip().(kind := kind, count := count);
    }
  }

  /** For what is not a stack the count does not matter. */
  lemma TakenAnyCount(m: World<Item>, u: World<Item>, from: Item, x: Item, n: nat, n': nat)
    requires Taken(m, u, from, x, n) && !m[x].kind.stackable
    ensures Taken(m, u, from, x, n')
  {
    forall r | r in m ensures TakenAt(m, u, from, x, n', r) {
      assert TakenAt(m, u, from, x, n, r);
    }
  }

  method Take(from: Item, item: Item, n: nat, ghost S: set<Item>)
    requires from in S && item in S && Shape(Snap(S)) && StacksOk(Snap(S)) && from.isContainer
    requires item in from.itemlist && (item.kind.stackable ==> 1 <= n <= item.count)
    modifies S
    ensures Taken(old(Snap(S)), Snap(S), from, item, n)
    ensures !item.kind.stackable ==> StillWithin(old(Snap(S)), Snap(S), item)
  {
    ghost var m := Snap(S);
    ghost var i :| 0 <= i < |from.itemlist| && from.itemlist[i] == item;
    HeldHere(m, from, i);
    from.RemoveThing(item, n, S);
    if m[item].kind.stackable && n != m[item].count {
      assert Linked(m, item);
      TakenPart(m, Snap(S), from, item, n);
    } else {
      TakenWhole(m, Snap(S), from, item, i);
      if !m[item].kind.stackable {
        TakenAnyCount(m, Snap(S), from, item, 1, n);
      }
    }
  }

  ghost function Known(y: Item?): Option<Item> { if y == null then None else Some(y) }

  /** The whole effect of a move: n units left `from` and arrived in `dest`, and all else is where it was. */
  ghost predicate Transferred(m: World<Item>, w: World<Item>, from: Item, dest: Item, x: Item, y: Item?, n: nat) {
    && x in m && dest in m && Moved(m, w, m[x].kind, Some(from), dest, n)
    && StacksOk(w) && |w[dest].items| <= Bound(m[dest])
    && (forall k: Cache {:trigger CachesOk(w, k)} :: CachesOk(m, k) && Portable(m, k, x) ==> CachesOk(w, k))
    && AllTransferred(m, w, from, dest, x, Known(y), n)
  }

  lemma MovedFromTo(m: World<Item>, u: World<Item>, w: World<Item>, kind: Kind, from: Item, dest: Item, n: int)
    requires Moved(m, u, kind, None, from, -n) && Moved(u, w, kind, None, dest, n)
    ensures Moved(m, w, kind, Some(from), dest, n)
  {
    forall r, other | r in m
      ensures Held(w, r, Units(other)) == Held(m, r, Units(other)) +
        if other != kind then 0 else (if r == dest then n else 0) - if from == r then n else 0
    {
      assert r in u;
    }
  }

  /** Taking and delivering make a transfer. */
  lemma TransferredBy(m: World<Item>, u: World<Item>, w: World<Item>, from: Item, dest: Item, x: Item, y: Item?, n: nat)
    requires Taken(m, u, from, x, n) && x in m && dest in m && (m[x].kind.stackable || n == 1)
    requires Moved(u, w, m[x].kind, None, dest, n) && StacksOk(w) && |w[dest].items| <= Bound(m[dest])
    requires forall k: Cache {:trigger CachesOk(w, k)} ::
      CachesOk(u, k) && GainExact(k, m[x].Share(k)) ==> CachesOk(w, k)
    requires AllTransferred(m, w, from, dest, x, Known(y), n)
    ensures Transferred(m, w, from, dest, x, y, n)
  {
    MovedFromTo(m, u, w, m[x].kind, from, dest, n);
    forall k: Cache | CachesOk(m, k) && Portable(m, k, x) ensures CachesOk(w, k) {
      assert CachesOk(u, k);
    }
  }

  /** Where a move has settled: container d, slot i, and the item y lying there. */
  ghost predicate Landed(m: World<Item>, d: Item, i: int, x: Item, y: Item?) {
    && Shape(m) && d in m && x in m && Linked(m, d) && m[d].isContainer && i >= WHEREEVER
    && (if 0 <= i < |m[d].items| then y == m[d].items[i] else y == null)
    && (i < m[d].capacity || (y != null && m[x].kind.stackable && y in m && Mergeable(m, x, y)))
  }

  /**
   * Following `queryDestination` from `to`, at most one container onwards, a move arrives at slot i of d, where y
   * lies.
   */
  ghost predicate Arrives(m: World<Item>, to: Item, index: int, x: Item, d: Item, i: int, y: Item?)
    requires Shape(m) && to in m && x in m
  {
    if d == to then Destination(m, to, index, x, to, i, y)
    else d in m && Destination(m, to, index, x, d, WHEREEVER, null) && Destination(m, d, WHEREEVER, x, d, i, y)
  }

  lemma ArrivesLanded(m: World<Item>, to: Item, index: int, x: Item, d: Item, i: int, y: Item?)
    requires Shape(m) && to in m && x in m && m[to].isContainer && index >= WHEREEVER
    requires Arrives(m, to, index, x, d, i, y)
    ensures Landed(m, d, i, x, y) && (y != null ==> y in m)
  {
    assert Linked(m, to) && Linked(m, d);
    if m[to].parent.Some? {
      ParentOf(m, to);
    }
  }

  const MAP_MAX_LAYERS := 16

  /** The loop that follows `queryDestination` from cylinder to cylinder. */
  method Resolve(to: Item, index: int, item: Item, ghost S: set<Item>)
    returns (toCylinder: Item, slot: int, toItem: Item?)
    requires to in S && item in S && Shape(Snap(S)) && to.isContainer && index >= WHEREEVER
    ensures Arrives(Snap(S), to, index, item, toCylinder, slot, toItem)
  {
    ghost var m := Snap(S);
    toCylinder := to;
    var floorN := 0;
    var subCylinder;
    subCylinder, slot, toItem := toCylinder.QueryDestination(index, item, S);
    while subCylinder != toCylinder
      invariant toCylinder in S && toCylinder.isContainer && 0 <= floorN <= 1
      invariant floorN == 0 ==> Destination(m, to, index, item, subCylinder, slot, toItem) && toCylinder == to
      invariant floorN == 1 ==> toCylinder != to && Destination(m, to, index, item, toCylinder, WHEREEVER, null)
      invariant floorN == 1 ==> Destination(m, toCylinder, WHEREEVER, item, subCylinder, slot, toItem)
      decreases MAP_MAX_LAYERS - floorN
    {
      assert Linked(m, toCylinder);
      if toCylinder.parent != null {
        ParentOf(m, toCylinder);
      }
      toCylinder := subCylinder;
      floorN := floorN + 1;
      if floorN >= MAP_MAX_LAYERS {
        break;
      }
      subCylinder, slot, toItem := toCylinder.QueryDestination(slot, item, S);
    }
  }

  /** How many units of x a move of `count` into slot i of d carries: all that are asked for and fit, or none. */
  ghost function Moves(m: World<Item>, from: Item, d: Item, i: int, x: Item, y: Item?, count: nat): int
    requires Shape(m) && from in m && d in m && x in m
  {
    var room := Room(m, d, i, x);
    var n := if !m[x].kind.stackable then (if room > 0 then 1 else 0) else if count < room then count else room;
    if y == x || QueryAddAnswer(m, d, i, x) != NoError || x !in m[from].items || !m[x].kind.moveable ||
       (m[x].kind.stackable && n > m[x].count)
    then 0
    else n
  }

  /** What a move asks `from` for: as much of the count as there is room for. */
  ghost function Wanted(m: World<Item>, d: Item, i: int, x: Item, count: nat): int
    requires Shape(m) && d in m && x in m
  {
    var room := Room(m, d, i, x);
    if !m[x].kind.stackable then room else if count < room then count else room
  }

  /** The answer of a move: the first refusal of the three queries, or that not all of the count had room. */
  ghost function MoveAnswer(m: World<Item>, from: Item, d: Item, i: int, x: Item, y: Item?, count: nat): ReturnValue
    requires Shape(m) && from in m && d in m && x in m
  {
    var room, wanted := Room(m, d, i, x), Wanted(m, d, i, x, count);
    if y == x then NoError
    else if QueryAddAnswer(m, d, i, x) != NoError then QueryAddAnswer(m, d, i, x)
    else if room == 0 && (m[x].kind.stackable ==> count > 0) then ContainerNotEnoughRoom
    else if wanted >= 0 && RemoveAnswer(m[from], x, m[x], wanted) != NoError then RemoveAnswer(m[from], x, m[x], wanted)
    else if m[x].kind.stackable && room < count then ContainerNotEnoughRoom
    else NoError
  }

  /** What the thing at the slot takes of x. */
  ghost function Takes(m: World<Item>, x: Item, y: Item?): nat
    requires x in m
  {
    GapAt(m, Known(y), m[x].kind)
  }

  /** Everything a move has checked before it changes anything. */
  ghost predicate ReadyToMove(m: World<Item>, from: Item, d: Item, i: int, x: Item, y: Item?, n: nat) {
    && Landed(m, d, i, x, y) && StacksOk(m) && from in m && x in m[from].items && m[from].isContainer && y != x
    && !Within(m, d, x)
    && (m[x].kind.stackable ==>
          (y != null ==> y in m) && 1 <= n <= m[x].count && (n <= Takes(m, x, y) || FreeSlots(m[d]) >= 1))
    && (!m[x].kind.stackable ==> FreeSlots(m[d]) >= 1)
  }

  lemma Ready(m: World<Item>, from: Item, d: Item, i: int, x: Item, y: Item?, n: nat, max: int)
    requires Landed(m, d, i, x, y) && StacksOk(m) && from in m && x in m[from].items && m[from].isContainer && y != x
    requires QueryAddAnswer(m, d, i, x) == NoError && max == Room(m, d, i, x) && n != 0
    requires if m[x].kind.stackable then n <= max && n <= m[x].count else n == max
    ensures ReadyToMove(m, from, d, i, x, y, n)
  {
    if m[x].kind.stackable && i != WHEREEVER {
      assert MergeRoom(m, d, i, x) == Takes(m, x, y);
    }
  }

  /** Delivering a thing that is not a stack: it goes into the destination as it is. */
  method DeliverWhole(dest: Item, slot: int, item: Item, ghost from: Item, ghost y: Item?, ghost m: World<Item>,
                      ghost S: set<Item>)
    requires dest in S && item in S && m.Keys == S && ReadyToMove(m, from, dest, slot, item, y, 1)
    requires !m[item].kind.stackable && Taken(m, Snap(S), from, item, 1) && StillWithin(m, Snap(S), item)
    modifies S
    ensures Transferred(m, Snap(S), from, dest, item, y, 1)
    ensures item in dest.itemlist
  {
    ghost var u := Snap(S);
    Place(dest, slot, item, S);
    assert dest.itemlist[0] == item;
    ghost var w := Snap(S);
    forall k: Cache | CachesOk(u, k) && GainExact(k, m[item].Share(k)) ensures CachesOk(w, k) {
      assert GainExact(k, u[item].Share(k));
    }
    WholeAt(m, u, w, from, dest, item, y);
    TransferredBy(m, u, w, from, dest, item, y, 1);
  }

  lemma WholeAt(m: World<Item>, u: World<Item>, w: World<Item>, from: Item, dest: Item, x: Item, y: Item?)
    requires Taken(m, u, from, x, 1) && !m[x].kind.stackable && dest in m && dest != x && w.Keys == u.Keys
    requires w[dest].Strip() == u[dest].Strip().(items := [x] + u[dest].items)
    requires w[x].Strip() == u[x].Strip().(parent := Some(dest))
    requires forall r {:trigger w[r]} :: r in u && r != dest && r != x ==> w[r].Strip() == u[r].Strip()
    ensures AllTransferred(m, w, from, dest, x, Known(y), 1)
  {
    forall r | r in m ensures TransferredAt(m, w, from, dest, x, Known(y), 1, r) {
      assert TakenAt(m, u, from, x, 1, r);
      assert r != dest && r != x ==> w[r].Strip() == u[r].Strip();
      assert w[dest].Strip().items == [x] + u[dest].items && ([x] + u[dest].items)[1..] == u[dest].items;
    }
  }

  /** What filling the stack y of c with n units, or a new one with what y does not take, leaves of an item. */
  ghost predicate FilledAt<R>(m: World<R>, w: World<R>, c: R, y: Option<R>, kind: Kind, n: nat, r: R)
    requires r in m && r in w
  {
    && SamePlace(m[r], w[r]) && w[r].count == m[r].count + TakenUp(m, y, kind, n, r)
    && (if r == c then Fronted(m, w, c, m[r].items, kind, n - GapAt(m, y, kind)) else w[r].items == m[r].items)
  }

  ghost predicate AllFilled<R>(m: World<R>, w: World<R>, c: R, y: Option<R>, kind: Kind, n: nat) {
    && m.Keys <= w.Keys
    && forall r {:trigger FilledAt(m, w, c, y, kind, n, r)} :: r in m ==> FilledAt(m, w, c, y, kind, n, r)
  }

  /** More of one kind arrived in c: n units, in the stack y it held and in new ones. */
  ghost predicate Filled(m: World<Item>, w: World<Item>, c: Item, y: Item?, kind: Kind, n: nat, grown: nat) {
    && Moved(m, w, kind, None, c, n) && CachesKept(m, w) && (StacksOk(m) ==> StacksOk(w))
    && c in m && |w[c].items| <= |m[c].items| + grown
    && AllFilled(m, w, c, Known(y), kind, n)
  }

  /** Taking and filling stacks, item by item. */
  lemma StackAt(m: World<Item>, u: World<Item>, w: World<Item>, from: Item, dest: Item, x: Item, y: Item?, t: Item?,
                n: nat, grown: nat)
    requires Taken(m, u, from, x, n) && m[x].kind.stackable && dest in m && y != x && (y != null ==> y in m)
    requires t == Target(m, x, y) && Filled(u, w, dest, t, m[x].kind, n, grown)
    ensures AllTransferred(m, w, from, dest, x, Known(y), n)
  {
    var kind := m[x].kind;
    assert GapAt(u, Known(t), kind) == GapAt(m, Known(y), kind);
    forall r | r in m ensures TransferredAt(m, w, from, dest, x, Known(y), n, r) {
      assert TakenAt(m, u, from, x, n, r) && FilledAt(u, w, dest, Known(t), kind, n, r);
      assert TakenUp(u, Known(t), kind, n, r) == TakenUp(m, Known(y), kind, n, r);
    }
  }

  lemma FilledThen(m: World<Item>, u: World<Item>, w: World<Item>, c: Item, y: Item?, kind: Kind, a: nat, b: nat,
                   n: nat, grown: nat)
    requires n == a + b && Filled(m, u, c, y, kind, a, 0) && Filled(u, w, c, null, kind, b, grown)
    requires u.Keys == m.Keys && a == GapAt(m, Known(y), kind)
    ensures Filled(m, w, c, y, kind, n, grown)
  {
    forall r | r in m ensures FilledAt(m, w, c, Known(y), kind, n, r) {
      assert FilledAt(m, u, c, Known(y), kind, a, r) && FilledAt(u, w, c, Known(null), kind, b, r);
    }
    MovedThen(m, u, w, kind, c, a, b, n);
    forall k: Cache | CachesOk(m, k) ensures CachesOk(w, k) {
      assert CachesOk(u, k);
    }
  }

  method FillStack(c: Item, stack: Item, n: nat, ghost S: set<Item>)
    requires c in S && stack in S && Shape(Snap(S)) && StacksOk(Snap(S)) && c.isContainer
    requires stack in c.itemlist && stack.kind.stackable && stack.count + n <= stack.kind.maxCount
    modifies S
    ensures Snap(S).Keys == old(Snap(S)).Keys && Filled(old(Snap(S)), Snap(S), c, stack, old(stack.kind), n, 0)
  {
    ghost var m := Snap(S);
    TopUp(c, stack, n, S);
    ToppedFills(m, Snap(S), c, stack, m[stack].kind, n);
  }

  lemma ToppedFills(m: World<Item>, w: World<Item>, c: Item, y: Item, kind: Kind, n: nat)
    requires Shape(m) && c in m && Topped(m, w, c, y, n) && y in m[c].items
    requires m[y].kind == kind && kind.stackable && m[y].count + n <= kind.maxCount
    ensures Filled(m, w, c, y, kind, n, 0)
  {
    assert Linked(m, c) && c != y;
    assert w[c].Strip() == m[c].Strip();
    assert w[c].items == m[c].items;
    forall r | r in m ensures FilledAt(m, w, c, Known(y), kind, n, r) {
      assert r != y ==> w[r].Strip() == m[r].Strip();
      assert w[y].Strip() == m[y].Strip().(count := m[y].count + n);
    }
  }

  method FillNew(c: Item, slot: int, kind: Kind, n: nat, ghost S: set<Item>) returns (ghost S': set<Item>)
    requires c in S && Shape(Snap(S)) && StacksOk(Snap(S)) && c.isContainer && slot < c.capacity
    requires kind.stackable && 1 <= n <= kind.maxCount
    modifies S
    ensures S <= S' && forall o :: o in S' && o !in S ==> fresh(o)
    ensures Filled(old(Snap(S)), Snap(S'), c, null, kind, n, 1)
  {
    ghost var m := Snap(S);
    var stack;
    stack, S' := Clone(kind, n, S);
    ghost var v := Snap(S');
    BornKeeps(m, stack, v[stack], v);
    WithinIsContainer(v, c, stack);
    Place(c, slot, stack, S');
    ghost var w := Snap(S');
    NewStackFills(m, v, w, c, stack, kind, n);
  }

  lemma NewStackFills(m: World<Item>, v: World<Item>, w: World<Item>, c: Item, y: Item, kind: Kind, n: nat)
    requires Shape(m) && c in m && y in v && Born(m, y, v[y], v) && Shape(v) && v[y].kind == kind && v[y].count == n
    requires kind.stackable && w.Keys == v.Keys && Moved(v, w, kind, None, c, n) && StacksOk(w)
    requires w[c].Strip() == v[c].Strip().(items := [y] + v[c].items) && !v[y].isContainer
    requires w[y].Strip() == v[y].Strip().(parent := Some(c)) && n > 0
    requires forall r {:trigger w[r]} :: r in v && r != c && r != y ==> w[r].Strip() == v[r].Strip()
    requires forall k: Cache {:trigger CachesOk(w, k)} ::
      CachesOk(v, k) && GainExact(k, v[y].Share(k)) ==> CachesOk(w, k)
    ensures Filled(m, w, c, null, kind, n, 1)
  {
    NewStackAt(m, v, w, c, y, kind, n);
    NewStackMoved(m, v, w, c, y, kind, n);
  }

  lemma NewStackMoved(m: World<Item>, v: World<Item>, w: World<Item>, c: Item, y: Item, kind: Kind, n: nat)
    requires Shape(m) && c in m && y in v && Born(m, y, v[y], v) && Shape(v) && !v[y].isContainer
    requires w.Keys == v.Keys && Moved(v, w, kind, None, c, n)
    requires forall k: Cache {:trigger CachesOk(w, k)} ::
      CachesOk(v, k) && GainExact(k, v[y].Share(k)) ==> CachesOk(w, k)
    ensures Moved(m, w, kind, None, c, n) && CachesKept(m, w)
  {
    BornKeeps(m, y, v[y], v);
    forall r, other | r in m
      ensures Held(w, r, Units(other)) == Held(m, r, Units(other)) + if other == kind && r == c then n else 0
    {
      assert Held(v, r, Units(other)) == Held(m, r, Units(other));
    }
    forall k: Cache | CachesOk(m, k) ensures CachesOk(w, k) {
      assert CachesOk(v, k);
      assert GainExact(k, v[y].Share(k));
    }
  }

  lemma NewStackAt(m: World<Item>, v: World<Item>, w: World<Item>, c: Item, y: Item, kind: Kind, n: nat)
    requires Shape(m) && c in m && y in v && Born(m, y, v[y], v) && w.Keys == v.Keys
    requires v[y].kind == kind && v[y].count == n && !v[y].isContainer
    requires w[c].Strip() == v[c].Strip().(items := [y] + v[c].items)
    requires w[y].Strip() == v[y].Strip().(parent := Some(c)) && n > 0
    requires forall r {:trigger w[r]} :: r in v && r != c && r != y ==> w[r].Strip() == v[r].Strip()
    ensures AllFilled(m, w, c, Known(null), kind, n) && |w[c].items| == |m[c].items| + 1
  {
    assert w[c].Strip().items == [y] + v[c].items && ([y] + v[c].items)[1..] == m[c].items;
    assert Fronted(m, w, c, m[c].items, kind, n);
    forall r | r in m ensures FilledAt(m, w, c, Known(null), kind, n, r) {
      assert r != c ==> w[r].Strip() == v[r].Strip();
    }
  }

  /** Delivering n units of a stack: into the stack at the slot first, the rest as a new stack. */
  method DeliverStack(dest: Item, slot: int, kind: Kind, toItem: Item?, n: nat, ghost S: set<Item>)
    returns (ghost S': set<Item>)
    requires dest in S && Shape(Snap(S)) && StacksOk(Snap(S)) && dest.isContainer
    requires kind.stackable && 1 <= n <= kind.maxCount
    requires toItem != null && toItem.kind == kind ==>
      toItem in S && toItem in dest.itemlist && toItem.count < kind.maxCount
    requires (FreeSlots(NodeOf(dest)) >= 1 && slot < dest.capacity) ||
      (toItem != null && toItem.kind == kind && toItem.count + n <= kind.maxCount)
    modifies S
    ensures S <= S' && forall o :: o in S' && o !in S ==> fresh(o)
    ensures Filled(old(Snap(S)), Snap(S'), dest, toItem, kind, n, if old(FreeSlots(NodeOf(dest))) >= 1 then 1 else 0)
  {
    ghost var m := Snap(S);
    var merged := 0;
    if toItem != null && toItem.kind == kind {
      merged := if kind.maxCount - toItem.count < n then kind.maxCount - toItem.count else n;
      FillStack(dest, toItem, merged, S);
    }
    S' := S;
    ghost var u := Snap(S);
    var newCount := n - merged;
    if newCount > 0 {
      S' := FillNew(dest, slot, kind, newCount, S);
      FilledThen(m, u, Snap(S'), dest, toItem, kind, merged, newCount, n, 1);
    }
  }

  /** The second half of a move, after every check: take the units out, then deliver them. */
  method Carry(from: Item, dest: Item, slot: int, item: Item, toItem: Item?, n: nat, ghost y: Item?, ghost S: set<Item>)
    returns (ghost S': set<Item>)
    requires from in S && dest in S && item in S && ReadyToMove(Snap(S), from, dest, slot, item, y, n)
    requires item.kind.stackable ==> toItem == Target(Snap(S), item, y)
    requires y != null ==> y in S
    modifies S
    ensures S <= S' && forall o :: o in S' && o !in S ==> fresh(o)
    ensures Transferred(old(Snap(S)), Snap(S'), from, dest, item, y, if old(item.kind.stackable) then n else 1)
    ensures !old(item.kind.stackable) ==> item in dest.itemlist
  {
    ghost var m := Snap(S);
    Take(from, item, n, S);
    if item.kind.stackable {
      S' := CarryStack(from, dest, slot, item, toItem, n, y, m, S);
    } else {
      TakenAnyCount(m, Snap(S), from, item, n, 1);
      DeliverWhole(dest, slot, item, from, y, m, S);
      S' := S;
    }
  }

  /** Delivering units of a stack once they have been taken out of it. */
  method CarryStack(ghost from: Item, dest: Item, slot: int, item: Item, toItem: Item?, n: nat, ghost y: Item?,
                    ghost m: World<Item>, ghost S: set<Item>)
    returns (ghost S': set<Item>)
    requires dest in S && item in S && m.Keys == S && ReadyToMove(m, from, dest, slot, item, y, n)
    requires m[item].kind.stackable && Taken(m, Snap(S), from, item, n) && (y != null ==> y in S)
    requires toItem == Target(m, item, y)
    modifies S
    ensures S <= S' && forall o :: o in S' && o !in S ==> fresh(o)
    ensures Transferred(m, Snap(S'), from, dest, item, y, n)
  {
    ghost var u := Snap(S);
    TakenBounds(m, u, from, dest, slot, item, y, n);
    ghost var grown := if FreeSlots(u[dest]) >= 1 then 1 else 0;
    S' := DeliverStack(dest, slot, item.kind, toItem, n, S);
    StackAt(m, u, Snap(S'), from, dest, item, y, toItem, n, grown);
    TransferredBy(m, u, Snap(S'), from, dest, item, y, n);
  }

  /** The stack that x merges into, once a full one has been passed over. */
  ghost function Target(m: World<Item>, x: Item, y: Item?): Item?
    requires x in m && (y != null ==> y in m)
  {
    if y != null && m[y].kind == m[x].kind && m[y].count >= m[x].kind.maxCount then null else y
  }

  lemma TakenBounds(m: World<Item>, u: World<Item>, from: Item, d: Item, i: int, x: Item, y: Item?, n: nat)
    requires ReadyToMove(m, from, d, i, x, y, n) && m[x].kind.stackable && Taken(m, u, from, x, n)
    ensures u[d].isContainer && u[d].capacity == m[d].capacity && |u[d].items| <= |m[d].items|
    ensures FreeSlots(u[d]) >= FreeSlots(m[d]) && 1 <= n <= m[x].kind.maxCount
    ensures y != null && m[y].kind == m[x].kind ==>
      y in u[d].items && u[y].kind == m[y].kind && u[y].count == m[y].count
    ensures (FreeSlots(m[d]) >= 1 && i < m[d].capacity) || n <= Takes(m, x, y)
  {
  }

  lemma NothingMoves(m: World<Item>, from: Item, d: Item, i: int, x: Item, y: Item?, count: nat)
    requires Shape(m) && from in m && d in m && x in m && QueryAddAnswer(m, d, i, x) != NoError
    ensures Moves(m, from, d, i, x, y, count) == 0
  {
  }

  lemma MovesWithRoom(m: World<Item>, from: Item, d: Item, i: int, x: Item, y: Item?, count: nat, room: nat)
    requires Shape(m) && from in m && d in m && x in m && QueryAddAnswer(m, d, i, x) == NoError && y != x
    requires room == Room(m, d, i, x)
    ensures Moves(m, from, d, i, x, y, count) ==
      var n := if !m[x].kind.stackable then (if room > 0 then 1 else 0) else if count < room then count else room;
      if x !in m[from].items || !m[x].kind.moveable || (m[x].kind.stackable && n > m[x].count) then 0 else n
  {
  }

  /** The queries of a move. They let it through exactly when something moves, and `full` when that is all. */
  method Permit(from: Item, dest: Item, slot: int, item: Item, count: nat, ghost y: Item?, ghost S: set<Item>)
    returns (ret: ReturnValue, amount: nat, full: ReturnValue)
    requires from in S && dest in S && item in S && Shape(Snap(S)) && StacksOk(Snap(S)) && from.isContainer
    requires Landed(Snap(S), dest, slot, item, y) && y != item
    ensures ret == NoError ==> ReadyToMove(Snap(S), from, dest, slot, item, y, amount)
    ensures Moves(Snap(S), from, dest, slot, item, y, count) ==
      if ret != NoError then 0 else if item.kind.stackable then amount else 1
    ensures MoveAnswer(Snap(S), from, dest, slot, item, y, count) ==
      if ret != NoError then ret else if item.kind.stackable then full else NoError
    ensures ret == NoError ==> (full == NoError <==> amount == count || !item.kind.stackable)
  {
    amount, full := 0, NoError;
    ret := dest.QueryAdd(slot, item, S);
    if ret != NoError {
      NothingMoves(Snap(S), from, dest, slot, item, y, count);
      return;
    }
    ret, amount, full := PermitCount(from, dest, slot, item, count, y, S);
  }

  /** The second and the third query: how much there is room for, and whether `from` lets go of it. */
  method PermitCount(from: Item, dest: Item, slot: int, item: Item, count: nat, ghost y: Item?, ghost S: set<Item>)
    returns (ret: ReturnValue, amount: nat, full: ReturnValue)
    requires from in S && dest in S && item in S && Shape(Snap(S)) && StacksOk(Snap(S)) && from.isContainer
    requires Landed(Snap(S), dest, slot, item, y) && y != item && QueryAddAnswer(Snap(S), dest, slot, item) == NoError
    ensures ret == NoError ==> ReadyToMove(Snap(S), from, dest, slot, item, y, amount)
    ensures Moves(Snap(S), from, dest, slot, item, y, count) ==
      if ret != NoError then 0 else if item.kind.stackable then amount else 1
    ensures MoveAnswer(Snap(S), from, dest, slot, item, y, count) ==
      if ret != NoError then ret else if item.kind.stackable then full else NoError
    ensures ret == NoError ==> (full == NoError <==> amount == count || !item.kind.stackable)
  {
    ghost var m := Snap(S);
    var maxQueryCount;
    full, maxQueryCount := dest.QueryMaxCount(slot, item, count, S);
    MovesWithRoom(m, from, dest, slot, item, y, count, maxQueryCount);
    if full != NoError && maxQueryCount == 0 {
      return full, 0, full;
    }
    amount := if item.kind.stackable then (if count < maxQueryCount then count else maxQueryCount) else maxQueryCount;
    ret := from.QueryRemove(item, amount);
    AnsweredWithRoom(m, from, dest, slot, item, y, count, maxQueryCount, amount);
    if ret == NoError {
      Ready(m, from, dest, slot, item, y, amount, maxQueryCount);
    }
  }

  /** Once there is some room, the answer is that of `from`, or whether all of the count has room. */
  lemma AnsweredWithRoom(m: World<Item>, from: Item, d: Item, i: int, x: Item, y: Item?, count: nat, room: nat,
                         wanted: nat)
    requires Shape(m) && from in m && d in m && x in m && QueryAddAnswer(m, d, i, x) == NoError && y != x
    requires room == Room(m, d, i, x) && wanted == Wanted(m, d, i, x, count)
    requires room > 0 || (m[x].kind.stackable && count == 0)
    ensures MoveAnswer(m, from, d, i, x, y, count) ==
      if RemoveAnswer(m[from], x, m[x], wanted) != NoError then RemoveAnswer(m[from], x, m[x], wanted)
      else if m[x].kind.stackable && room < count then ContainerNotEnoughRoom
      else NoError
  {
  }

  /**
   * `internalMoveItem` with flags 0 and no trade item. Exactly as many units as may be taken and fit leave `from`
   * and arrive in `dest`: no kind is gained or lost anywhere, stacks and capacities keep their bounds, no item
   * comes to lie inside itself, and the caches stay exact. When that is none, nothing changes. No error means
   * that all of the count was moved, or that the item was dropped onto itself.
   */
  method InternalMoveItem(from: Item, to: Item, index: int, item: Item, count: nat, ghost S: set<Item>)
    returns (ret: ReturnValue, ghost dest: Item, ghost slot: int, ghost there: Item?, ghost moved: nat,
      ghost S': set<Item>)
    requires from in S && to in S && item in S && Shape(Snap(S)) && StacksOk(Snap(S))
    requires from.isContainer && to.isContainer && index >= WHEREEVER
    modifies S
    ensures S <= S' && (forall o :: o in S' && o !in S ==> fresh(o)) && dest in S && (there != null ==> there in S)
    ensures old(Arrives(Snap(S), to, index, item, dest, slot, there))
    ensures moved == old(Moves(Snap(S), from, dest, slot, item, there, count))
    ensures moved == 0 ==> S' == S && Snap(S) == old(Snap(S))
    ensures moved > 0 ==> Transferred(old(Snap(S)), Snap(S'), from, dest, item, there, moved)
    ensures ret == old(MoveAnswer(Snap(S), from, dest, slot, item, there, count))
    ensures ret == NoError <==> there == item || (moved > 0 && moved == if old(item.kind.stackable) then count else 1)
  {
    ghost var m := Snap(S);
    var toCylinder, toIndex, toItem := Resolve(to, index, item, S);
    S', moved, dest, slot, there := S, 0, toCylinder, toIndex, toItem;
    ArrivesLanded(m, to, index, item, toCylinder, toIndex, toItem);
    if item == toItem {
      ret := NoError;
      return;
    }
    if toItem != null && item.kind == toItem.kind && toItem.count >= item.kind.maxCount {
      toItem := null;
    }
    var amount, full;
    ret, amount, full := Permit(from, toCylinder, toIndex, item, count, there, S);
    if ret != NoError {
      return;
    }
    moved := if item.kind.stackable then amount else 1;
    var stackable := item.kind.stackable;
    S' := Carry(from, toCylinder, toIndex, item, toItem, amount, there, S);
    if stackable {
      ret := full;
    }
  }
}
