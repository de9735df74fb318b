/**
 * Items and containers as objects. Every method that changes something is proved against the
 * operation of the same name on the value of the forest.
 */
module Containers {
  import opened Options
  import opened Words
  import opened Forest
  import opened Stacks

  const WHEREEVER := -1

  datatype ReturnValue = NoError | NotPossible | CannotPickup | ThisIsImpossible | ContainerNotEnoughRoom | NotMoveable

  ghost function NodeOf(t: Item): Node<Item>
    reads t
  {
    var p: Option<Item> := if t.parent == null then None else Some(t.parent as Item);
    Node(t.kind, t.count, p, t.isContainer, t.capacity,
         t.itemlist, t.totalWeight, t.totalPokemon, t.depth)
  }

  /** The forest formed by the items of S. */
  ghost function Snap(S: set<Item>): World<Item>
    reads S
  {
    map t | t in S :: NodeOf(t)
  }

  lemma BumpedHere(m: World<Item>, k: Cache, c: Item, d: int, m1: World<Item>)
    requires Shape(m) && c in m && m1.Keys == m.Keys
    requires m1[c] == m[c].SetCached(k, U32(m[c].Cached(k) + d))
    requires forall r {:trigger m1[r]} :: r in m && r != c ==> m1[r] == m[r]
    ensures m1 == m[c := m[c].SetCached(k, U32(m[c].Cached(k) + d))] && Shape(m1)
    ensures m[c].parent.Some? ==>
      m[c].parent.value in m && m[m[c].parent.value].isContainer && m[m[c].parent.value].depth < m[c].depth
  {
    assert m1 == m[c := m[c].SetCached(k, U32(m[c].Cached(k) + d))];
    SameLinksShape(m, m1);
    if m[c].parent.Some? {
      ParentOf(m, c);
    }
  }

  /** What `queryAdd` answers for an unlocked container without a container type, flags 0. */
  ghost function QueryAddAnswer(m: World<Item>, c: Item, index: int, x: Item): ReturnValue
    requires Shape(m) && c in m && x in m
  {
    if !m[x].kind.pickupable then CannotPickup
    else if Within(m, c, x) then ThisIsImpossible
    else if index == WHEREEVER && |m[c].items| >= m[c].capacity then ContainerNotEnoughRoom
    else NoError
  }

  /** Does a container let go of so much of an item? */
  function RemoveAnswer(c: Node<Item>, x: Item, n: Node<Item>, count: nat): ReturnValue {
    if x !in c.items || count == 0 || (n.kind.stackable && count > n.count) then NotPossible
    else if !n.kind.moveable then NotMoveable
    else NoError
  }

  /** Could x be merged into the stack y? */
  ghost predicate Mergeable(m: World<Item>, x: Item, y: Item)
    requires x in m && y in m
  {
    y != x && m[y].kind == m[x].kind && m[y].count < m[x].kind.maxCount
  }

  function FreeSlots(c: Node<Item>): nat {
    if c.capacity > |c.items| then c.capacity - |c.items| else 0
  }

  /** How many units of x `queryMaxCount` finds room for at this index. */
  ghost function Room(m: World<Item>, c: Item, index: int, x: Item): int
    requires Shape(m) && c in m && x in m
  {
    assert Linked(m, c);
    if !m[x].kind.stackable then FreeSlots(m[c])
    else FreeSlots(m[c]) * m[x].kind.maxCount + MergeRoom(m, c, index, x)
  }

  ghost function MergeRoom(m: World<Item>, c: Item, index: int, x: Item): int
    requires Shape(m) && c in m && x in m
  {
    assert Linked(m, c);
    var kind, items := m[x].kind, m[c].items;
    if !kind.pickupable || Within(m, c, x) then 0
    else if index == WHEREEVER then Held(m, c, Gap(x, kind))
    else if 0 <= index < |items| && m[items[index]].kind == kind && m[items[index]].count < kind.maxCount then
      kind.maxCount - m[items[index]].count
    else 0
  }

  function RoomWith(freeSlots: nat, max: nat, n: nat): nat {
    assert freeSlots * max >= 0;
    freeSlots * max + n
  }

  /** Where `queryDestination` of c sends an item x dropped at an index. */
  ghost predicate Destination(m: World<Item>, c: Item, index: int, x: Item, d: Item, i: int, y: Item?)
    requires Shape(m) && c in m && x in m
  {
    assert Linked(m, c);
    if index == 254 then i == WHEREEVER && y == null && d == if m[c].parent.Some? then m[c].parent.value else c
    else
      var slot := if index == 255 || index >= m[c].capacity then WHEREEVER else index;
      if 0 <= slot < |m[c].items| && m[m[c].items[slot]].isContainer then
        d == m[c].items[slot] && i == WHEREEVER && y == null
      else d == c && Settled(m, c, slot, x, i, y)
  }

  /** The stack that x merges into: the first mergeable one, or else whatever lies at the slot. */
  ghost predicate Settled(m: World<Item>, c: Item, slot: int, x: Item, i: int, y: Item?)
    requires Shape(m) && c in m && x in m
  {
    assert Linked(m, c);
    var items := m[c].items;
    if m[x].kind.stackable && m[x].parent != Some(c) && exists j :: 0 <= j < |items| && Mergeable(m, x, items[j]) then
      && 0 <= i < |items| && y == items[i] && Mergeable(m, x, items[i])
      && (forall j :: 0 <= j < i ==> !Mergeable(m, x, items[j]))
    else
      i == slot && y == if 0 <= slot < |items| then items[slot] else null
  }

  ghost predicate SameShares(a: Node<Item>, b: Node<Item>) {
    a.Share(Weight) == b.Share(Weight) && a.Share(Pokemon) == b.Share(Pokemon)
  }

  ghost function DeepenedNode(n: Node<Item>, inside: bool, shift: nat): Node<Item> {
    if inside then n.(depth := n.depth + shift) else n
  }

  /** The parts of linking an item in make up the attachment. */
  lemma AttachedTo(m: World<Item>, c: Item, x: Item, i: nat, inside: set<Item>, items: seq<Item>, d: World<Item>,
                   w: World<Item>)
    requires CanAttach(m, c, x, i) && items == m[c].items[..i] + [x] + m[c].items[i..]
    requires inside == (set t | t in m && Within(m, t, x)) && d.Keys == m.Keys == w.Keys
    requires forall t {:trigger d[t]} :: t in m ==> d[t] == DeepenedNode(m[t], t in inside, m[c].depth + 1)
    requires w[x] == d[x].(parent := Some(c)) && w[c] == d[c].(items := items)
    requires forall t {:trigger w[t]} :: t in m && t != x && t != c ==> w[t] == d[t]
    ensures forall r {:trigger w[r]} :: r in m ==> w[r] == AttachedNode(m, c, x, i, r)
  {
    forall r | r in m ensures w[r] == AttachedNode(m, c, x, i, r) {
      assert r in inside <==> Within(m, r, x);
      assert d[r] == DeepenedNode(m[r], r in inside, m[c].depth + 1);
    }
  }

  class Item {
    var kind: Kind
    var count: nat
    var parent: Item?
    const isContainer: bool
    const capacity: nat
    var itemlist: seq<Item>
    var totalWeight: Word
    var totalPokemon: Word
    ghost var depth: nat

    constructor (kind: Kind, count: nat, isContainer: bool, capacity: nat)
      ensures NodeOf(this) == Node(kind, count, None, isContainer, capacity, [], 0, 0, 0)
    {
      this.kind, this.count := kind, count;
      this.isContainer, this.capacity := isContainer, capacity;
      parent, itemlist, totalWeight, totalPokemon, depth := null, [], 0, 0, 0;
    }

    method GetWeight() returns (w: Word)
      ensures w == NodeOf(this).Share(Weight)
    {
      var base := kind.baseWeight;
      if kind.stackable {
        base := base * (if count > 1 then count else 1);
      }
      w := U32(base + if isContainer then totalWeight else 0);
    }

    method GetPokemonCount() returns (n: nat)
      ensures n == U8(NodeOf(this).Share(Pokemon))
    {
      n := if isContainer then U8(totalPokemon) else if kind.pokemonId != 0 then 1 else 0;
    }

    method UpdateItemWeight(diff: int, ghost S: set<Item>)
      requires this in S && Shape(Snap(S)) && isContainer
      modifies S`totalWeight
      ensures Snap(S) == Propagate(old(Snap(S)), Weight, this, diff)
      decreases depth
    {
      ghost var m := Snap(S);
      totalWeight := U32(totalWeight + diff);
      BumpedHere(m, Weight, this, diff, Snap(S));
      if parent != null {
        parent.UpdateItemWeight(diff, S);
      }
    }

    method UpdateItemPokemonCount(diff: int, ghost S: set<Item>)
      requires this in S && Shape(Snap(S)) && isContainer
      modifies S`totalPokemon
      ensures Snap(S) == Propagate(old(Snap(S)), Pokemon, this, diff)
      decreases depth
    {
      ghost var m := Snap(S);
      totalPokemon := U32(totalPokemon + diff);
      BumpedHere(m, Pokemon, this, diff, Snap(S));
      if parent != null {
        parent.UpdateItemPokemonCount(diff, S);
      }
    }

    /** `updateItemWeight` followed by `updateItemPokemonCount`. */
    method UpdateCaches(dw: int, dp: int, ghost S: set<Item>)
      requires this in S && Shape(Snap(S)) && isContainer
      modifies S`totalWeight, S`totalPokemon
      ensures Snap(S) == Bump(old(Snap(S)), this, dw, dp)
    {
      UpdateItemWeight(dw, S);
      UpdateItemPokemonCount(dp, S);
    }

    /** What every way of adding an item ends with. */
    method TakeIn(item: Item, ghost S: set<Item>)
      requires this in S && item in S && Shape(Snap(S)) && isContainer
      modifies S`totalWeight, S`totalPokemon
      ensures var m := old(Snap(S));
        Snap(S) == Bump(m, this, Gain(Weight, m[item].Share(Weight)), Gain(Pokemon, m[item].Share(Pokemon)))
    {
      var w := item.GetWeight();
      var n := item.GetPokemonCount();
      UpdateCaches(I32(w), n, S);
    }

    /** What removing a whole item starts with. */
    method GiveUp(item: Item, ghost S: set<Item>)
      requires this in S && item in S && Shape(Snap(S)) && isContainer
      modifies S`totalWeight, S`totalPokemon
      ensures var m := old(Snap(S));
        Snap(S) == Bump(m, this, Loss(Weight, m[item].Share(Weight)), Loss(Pokemon, m[item].Share(Pokemon)))
    {
      var w := item.GetWeight();
      var n := item.GetPokemonCount();
      var dw, dp := -I32(w), -I8(n);
      ghost var lw, lp := Loss(Weight, NodeOf(item).Share(Weight)), Loss(Pokemon, NodeOf(item).Share(Pokemon));
      assert dw == lw && dp == lp;
      UpdateCaches(dw, dp, S);
      assert Snap(S) == Bump(old(Snap(S)), this, lw, lp);
    }

    /** The link part of adding: the item becomes this container's i-th. */
    method LinkIn(item: Item, i: nat, ghost S: set<Item>)
      requires this in S && item in S && CanAttach(Snap(S), this, item, i)
      modifies S
      ensures var m := old(Snap(S));
        Snap(S) == Attach(m, this, item, i) && Shape(Snap(S)) && SameShares(m[item], NodeOf(item))
    {
      ghost var m := Snap(S);
      ghost var inside := set t | t in S && Within(m, t, item);
      ghost var items := itemlist[..i] + [item] + itemlist[i..];
      Deepen(inside, depth + 1, S);
      ghost var d := Snap(S);
      item.parent := this;
      itemlist := itemlist[..i] + [item] + itemlist[i..];
      ghost var w := Snap(S);
      AttachedTo(m, this, item, i, inside, items, d, w);
      Attached(m, this, item, i, w);
    }

    /** The witnesses of depth move with the item. */
    static ghost method Deepen(inside: set<Item>, shift: nat, S: set<Item>)
      requires inside <= S
      modifies S`depth
      ensures Snap(S).Keys == old(Snap(S)).Keys
      ensures forall t {:trigger Snap(S)[t]} ::
        t in S ==> Snap(S)[t] == DeepenedNode(old(Snap(S))[t], t in inside, shift)
    {
      forall t | t in inside {
        t.depth := t.depth + shift;
      }
    }

    /** The link part of removing: the i-th item leaves. */
    method LinkOut(i: nat, ghost S: set<Item>)
      requires this in S && Shape(Snap(S)) && i < |itemlist|
      modifies S
      ensures Snap(S) == Detach(old(Snap(S)), this, i)
    {
      ghost var m := Snap(S);
      HeldHere(m, this, i);
      itemlist[i].parent := null;
      itemlist := itemlist[..i] + itemlist[i + 1..];
      Detached(m, this, i, Snap(S));
    }

    /** `internalAddThing`, and `addThing` below the capacity: the item goes in front. */
    method InternalAddThing(item: Item, ghost S: set<Item>)
      requires this in S && item in S && CanAttach(Snap(S), this, item, 0)
      modifies S
      ensures Snap(S) == AddItem(old(Snap(S)), this, item, 0)
    {
      LinkIn(item, 0, S);
      TakeIn(item, S);
    }

    /** `addItemBack`: the item goes behind all others. */
    method AddItemBack(item: Item, ghost S: set<Item>)
      requires this in S && item in S && CanAttach(Snap(S), this, item, |itemlist|)
      modifies S
      ensures Snap(S) == AddItem(old(Snap(S)), this, item, old(|itemlist|))
    {
      LinkIn(item, |itemlist|, S);
      TakeIn(item, S);
    }

    /** `addThing`: silently nothing when the index lies beyond the capacity. */
    method AddThing(index: int, item: Item, ghost S: set<Item>)
      requires this in S && item in S && CanAttach(Snap(S), this, item, 0)
      modifies S
      ensures Snap(S) == if index >= capacity then old(Snap(S)) else AddItem(old(Snap(S)), this, item, 0)
    {
      if index >= capacity {
        return;
      }
      InternalAddThing(item, S);
    }

    method GetThingIndex(thing: Item) returns (index: int)
      ensures thing in itemlist ==> 0 <= index < |itemlist| && itemlist[index] == thing && thing !in itemlist[..index]
      ensures thing !in itemlist ==> index == -1
    {
      index := 0;
      while index < |itemlist|
        invariant 0 <= index <= |itemlist| && thing !in itemlist[..index]
      {
        if itemlist[index] == thing {
          return;
        }
        index := index + 1;
      }
      index := -1;
    }

    /**
     * Changing a held thing in place: the caches take the difference of its weights and of its pokemon
     * counts, the old one of which `updateThing` keeps in a signed byte.
     */
    method Rewrite(thing: Item, newKind: Kind, newCount: nat, signedByte: bool, ghost S: set<Item>)
      requires this in S && thing in S && isContainer && CanUpdate(Snap(S), this, thing, newKind)
      modifies S
      ensures Snap(S) == RewriteWorld(old(Snap(S)), this, thing, newKind, newCount, signedByte)
    {
      ghost var m := Snap(S);
      var oldWeight := thing.GetWeight();
      var oldPokemon := thing.GetPokemonCount();
      thing.kind := newKind;
      thing.count := newCount;
      ghost var a := Snap(S);
      Restacked(m, thing, newKind, newCount, a);
      var newWeight := thing.GetWeight();
      var newPokemon := thing.GetPokemonCount();
      var dw := newWeight - I32(oldWeight);
      var dp := newPokemon - if signedByte then I8(oldPokemon) else oldPokemon;
      Differences(m, thing, newKind, newCount, a, signedByte, oldWeight, newWeight, oldPokemon, newPokemon, dw, dp);
      UpdateCaches(dw, dp, S);
      Rewritten(m, this, thing, newKind, newCount, signedByte, dw, dp, a, Snap(S));
    }

    /**
     * `replaceThing`. The parent link of the replaced item is cleared last of all; for another item that makes no
     * difference, and an item replaced by itself ends without a parent.
     */
    method ReplaceThing(index: nat, item: Item, ghost S: set<Item>)
      requires this in S && item in S && Shape(Snap(S)) && isContainer
      requires index < |itemlist| && itemlist[index] != item ==> CanReplace(Snap(S), this, item, index)
      modifies S
      ensures Snap(S) ==
        if index < old(|itemlist|) then ReplacedWorld(old(Snap(S)), this, item, index) else old(Snap(S))
    {
      if index >= |itemlist| {
        return;
      }
      HeldHere(Snap(S), this, index);
      if itemlist[index] == item {
        ReplaceBySelf(index, item, S);
      } else {
        ReplaceByOther(index, item, S);
      }
    }

    method ReplaceBySelf(index: nat, item: Item, ghost S: set<Item>)
      requires this in S && item in S && Shape(Snap(S)) && isContainer && index < |itemlist| && itemlist[index] == item
      modifies S
      ensures Snap(S) == SelfReplaced(old(Snap(S)), this, index)
    {
      ghost var m := Snap(S);
      Exchange(item, item, S);
      ghost var b := Snap(S);
      item.parent := null;
      Orphaned(m, this, index, item, b, Snap(S));
    }

    method ReplaceByOther(index: nat, item: Item, ghost S: set<Item>)
      requires this in S && item in S && CanReplace(Snap(S), this, item, index)
      modifies S
      ensures Snap(S) == ReplaceWorld(old(Snap(S)), this, item, index)
    {
      ghost var d := Detach(Snap(S), this, index);
      HeldHere(Snap(S), this, index);
      var replaced := itemlist[index];
      DetachShape(Snap(S), this, index);
      LinkOut(index, S);
      LinkIn(item, index, S);
      ghost var a := Snap(S);
      Exchange(replaced, item, S);
      ExchangedShares(d, a, this, item, index, replaced);
    }

    method Exchange(replaced: Item, item: Item, ghost S: set<Item>)
      requires this in S && item in S && replaced in S && Shape(Snap(S)) && isContainer
      modifies S`totalWeight, S`totalPokemon
      ensures var m := old(Snap(S));
        Snap(S) == Bump(m, this, WeightChange(m[replaced], m[item]), PokemonChange(m[replaced], m[item], true))
    {
      var oldWeight := replaced.GetWeight();
      var newWeight := item.GetWeight();
      var oldPokemon := replaced.GetPokemonCount();
      var newPokemon := item.GetPokemonCount();
      var dw, dp := -I32(oldWeight) + newWeight, -I8(oldPokemon) + newPokemon;
      ghost var cw := WeightChange(NodeOf(replaced), NodeOf(item));
      ghost var cp := PokemonChange(NodeOf(replaced), NodeOf(item), true);
      assert dw == cw && dp == cp;
      UpdateCaches(dw, dp, S);
      assert Snap(S) == Bump(old(Snap(S)), this, cw, cp);
    }

    /** `updateThing`: nothing when the thing is not held here. */
    method UpdateThing(thing: Item, newKind: Kind, newCount: nat, ghost S: set<Item>)
      requires this in S && thing in S && Shape(Snap(S)) && isContainer
      requires thing.isContainer ==> !newKind.stackable
      modifies S
      ensures thing !in old(itemlist) ==> Snap(S) == old(Snap(S))
      ensures thing in old(itemlist) ==> (
        CanUpdate(old(Snap(S)), this, thing, newKind) &&
        Snap(S) == RewriteWorld(old(Snap(S)), this, thing, newKind, newCount, true))
    {
      ghost var m := Snap(S);
      var index := GetThingIndex(thing);
      if index == -1 {
        return;
      }
      HeldHere(m, this, index);
      Rewrite(thing, newKind, newCount, true, S);
    }

    /** `removeThing` */
    method RemoveThing(thing: Item, removed: nat, ghost S: set<Item>)
      requires this in S && thing in S && Shape(Snap(S)) && isContainer
      modifies S
      ensures thing !in old(itemlist) ==> Snap(S) == old(Snap(S))
      ensures forall i :: 0 <= i < |old(itemlist)| && old(itemlist)[i] == thing ==>
        Snap(S) == RemoveThingWorld(old(Snap(S)), this, i, removed)
    {
      ghost var m := Snap(S);
      var index := GetThingIndex(thing);
      if index == -1 {
        return;
      }
      HeldHere(m, this, index);
      if thing.kind.stackable && removed != thing.count {
        assert !thing.isContainer by {
          assert Linked(m, thing);
        }
        var newCount := if thing.count > removed then thing.count - removed else 0;
        ghost var kind := thing.kind;
        assert newCount == Left(thing.count, removed);
        Rewrite(thing, thing.kind, newCount, false, S);
        assert Snap(S) == RemovePart(m, this, thing, kind, newCount);
      } else {
        Unlink(thing, index, S);
      }
    }

    method Unlink(thing: Item, index: nat, ghost S: set<Item>)
      requires this in S && thing in S && Shape(Snap(S)) && isContainer
      requires index < |itemlist| && itemlist[index] == thing
      modifies S
      ensures Snap(S) == RemoveItem(old(Snap(S)), this, index)
    {
      ghost var m := Snap(S);
      HeldHere(m, this, index);
      GiveUp(thing, S);
      LinkOut(index, S);
    }

    // ---------- queries ----------

    method QueryAdd(index: int, item: Item, ghost S: set<Item>) returns (r: ReturnValue)
      requires this in S && item in S && Shape(Snap(S))
      ensures r == QueryAddAnswer(Snap(S), this, index, item)
    {
      ghost var m := Snap(S);
      if !item.kind.pickupable {
        return CannotPickup;
      }
      if item == this {
        return ThisIsImpossible;
      }
      if parent != null {
        ParentOf(m, this);
      }
      var cylinder := parent;
      while cylinder != null
        invariant cylinder != null ==> cylinder in S
        invariant Within(m, this, item) <==> cylinder != null && Within(m, cylinder, item)
        decreases if cylinder == null then 0 else cylinder.depth + 1
      {
        if cylinder == item {
          return ThisIsImpossible;
        }
        if cylinder.parent != null {
          ParentOf(m, cylinder);
        }
        cylinder := cylinder.parent;
      }
      if index == WHEREEVER && |itemlist| >= capacity {
        return ContainerNotEnoughRoom;
      }
      return NoError;
    }

    method QueryMaxCount(index: int, item: Item, count: nat, ghost S: set<Item>)
      returns (r: ReturnValue, maxQueryCount: nat)
      requires this in S && item in S && Shape(Snap(S)) && index >= WHEREEVER
      ensures maxQueryCount == Room(Snap(S), this, index, item)
      ensures r == if maxQueryCount < (if item.kind.stackable then count else 1) then ContainerNotEnoughRoom
        else NoError
    {
      assert Linked(Snap(S), this);
      var freeSlots := if capacity > |itemlist| then capacity - |itemlist| else 0;
      if item.kind.stackable {
        var n;
        if index == WHEREEVER {
          n := RoomInStacks(item, S);
        } else {
          n := RoomAt(index, item, S);
        }
        maxQueryCount := RoomWith(freeSlots, item.kind.maxCount, n);
        r := if maxQueryCount < count then ContainerNotEnoughRoom else NoError;
      } else {
        maxQueryCount := freeSlots;
        r := if maxQueryCount == 0 then ContainerNotEnoughRoom else NoError;
      }
    }

    /** What all the stacks here still take of an item. */
    method RoomInStacks(item: Item, ghost S: set<Item>) returns (n: nat)
      requires this in S && item in S && Shape(Snap(S)) && item.kind.stackable
      ensures n == MergeRoom(Snap(S), this, WHEREEVER, item)
    {
      ghost var m := Snap(S);
      ghost var q := Gap(item, item.kind);
      ghost var open := item.kind.pickupable && !Within(m, this, item);
      assert Linked(m, this);
      n := 0;
      var max := item.kind.maxCount;
      var slotIndex := 0;
      var i := 0;
      while i < |itemlist|
        invariant 0 <= i <= |itemlist| && slotIndex >= 0
        invariant n == if open then Tally(m, itemlist[..i], q) else 0
      {
        TallyPrefix(m, itemlist, i, q);
        var other := itemlist[i];
        if other != item && other.kind == item.kind && other.count < max {
          var answer := QueryAdd(slotIndex, item, S);
          slotIndex := slotIndex + 1;
          if answer == NoError {
            n := n + (max - other.count);
          }
        }
        i := i + 1;
      }
      assert itemlist[..i] == itemlist;
    }

    /** What the stack at an index still takes of an item. */
    method RoomAt(index: int, item: Item, ghost S: set<Item>) returns (n: nat)
      requires this in S && item in S && Shape(Snap(S)) && item.kind.stackable && index >= 0
      ensures n == MergeRoom(Snap(S), this, index, item)
    {
      assert Linked(Snap(S), this);
      n := 0;
      if index < |itemlist| {
        var dest := itemlist[index];
        if dest.kind == item.kind && dest.count < item.kind.maxCount {
          var answer := QueryAdd(index, item, S);
          if answer == NoError {
            n := item.kind.maxCount - dest.count;
          }
        }
      }
    }

    method QueryRemove(thing: Item, count: nat) returns (r: ReturnValue)
      ensures r == RemoveAnswer(NodeOf(this), thing, NodeOf(thing), count)
    {
      var index := GetThingIndex(thing);
      if index == -1 {
        return NotPossible;
      }
      if count == 0 || (thing.kind.stackable && count > thing.count) {
        return NotPossible;
      }
      if !thing.kind.moveable {
        return NotMoveable;
      }
      return NoError;
    }

    /** `queryDestination` with flags 0; destItem comes in as null. */
    method QueryDestination(index: int, item: Item, ghost S: set<Item>)
      returns (cylinder: Item, newIndex: int, destItem: Item?)
      requires this in S && item in S && Shape(Snap(S)) && isContainer && index >= WHEREEVER
      ensures Destination(Snap(S), this, index, item, cylinder, newIndex, destItem)
    {
      ghost var m := Snap(S);
      assert Linked(m, this);
      if index == 254 {
        if parent != null {
          return parent, WHEREEVER, null;
        }
        return this, WHEREEVER, null;
      }
      newIndex := if index == 255 || index >= capacity then WHEREEVER else index;
      destItem := null;
      if newIndex != WHEREEVER && newIndex < |itemlist| {
        destItem := itemlist[newIndex];
        if destItem.isContainer {
          return destItem, WHEREEVER, null;
        }
      }
      if item.kind.stackable && item.parent != this {
        var n := 0;
        while n < |itemlist|
          invariant 0 <= n <= |itemlist|
          invariant forall j :: 0 <= j < n ==> !Mergeable(m, item, itemlist[j])
        {
          var other := itemlist[n];
          if other != item && other.kind == item.kind && other.count < item.kind.maxCount {
            assert Mergeable(m, item, itemlist[n]);
            return this, n, other;
          }
          n := n + 1;
        }
      }
      return this, newIndex, destItem;
    }
  }

  lemma WithinIsContainer(m: World<Item>, c: Item, x: Item)
    requires Shape(m) && c in m && x in m && m[x].kind.stackable && m[c].isContainer
    ensures !Within(m, c, x)
    decreases m[c].depth
  {
    assert Linked(m, x);
    if m[c].parent.Some? {
      ParentOf(m, c);
      WithinIsContainer(m, m[c].parent.value, x);
    }
  }

  lemma ExchangedShares(d: World<Item>, a: World<Item>, c: Item, x: Item, i: nat, y: Item)
    requires CanAttach(d, c, x, i) && a == Attach(d, c, x, i) && y in d
    ensures WeightChange(a[y], a[x]) == WeightChange(d[y], d[x])
    ensures PokemonChange(a[y], a[x], true) == PokemonChange(d[y], d[x], true)
  {
    assert SameShares(a[y], d[y]) && SameShares(a[x], d[x]);
  }

  lemma Restacked(m: World<Item>, x: Item, kind: Kind, count: nat, a: World<Item>)
    requires Shape(m) && x in m && (m[x].isContainer ==> !kind.stackable) && a.Keys == m.Keys
    requires a[x] == m[x].(kind := kind, count := count)
    requires forall r {:trigger a[r]} :: r in m && r != x ==> a[r] == m[r]
    ensures a == Restack(m, x, kind, count) && Shape(a)
  {
    assert a == Restack(m, x, kind, count);
    RestackShape(m, x, kind, count);
  }

  lemma Differences(m: World<Item>, x: Item, kind: Kind, count: nat, a: World<Item>, signedByte: bool,
                    oldWeight: Word, newWeight: Word, oldPokemon: nat, newPokemon: nat, dw: int, dp: int)
    requires x in m && a == Restack(m, x, kind, count)
    requires oldWeight == m[x].Share(Weight) && newWeight == a[x].Share(Weight)
    requires oldPokemon == U8(m[x].Share(Pokemon)) && newPokemon == U8(a[x].Share(Pokemon))
    requires dw == newWeight - I32(oldWeight) && dp == newPokemon - if signedByte then I8(oldPokemon) else oldPokemon
    ensures dw == WeightChange(m[x], a[x]) && dp == PokemonChange(m[x], a[x], signedByte)
  {
  }

  lemma Rewritten(m: World<Item>, c: Item, x: Item, kind: Kind, count: nat, signedByte: bool, dw: int, dp: int,
                  a: World<Item>, w: World<Item>)
    requires CanUpdate(m, c, x, kind) && a == Restack(m, x, kind, count) && Shape(a) && c in a && a[c].isContainer
    requires dw == WeightChange(m[x], a[x]) && dp == PokemonChange(m[x], a[x], signedByte) && w == Bump(a, c, dw, dp)
    ensures w == RewriteWorld(m, c, x, kind, count, signedByte)
  {
    RewriteIsUpdate(m, c, x, kind, count, signedByte, a[x]);
    assert w == UpdateItem(m, c, x, kind, count, dw, dp);
  }

  lemma Orphaned(m: World<Item>, c: Item, i: nat, x: Item, b: World<Item>, w: World<Item>)
    requires Shape(m) && c in m && m[c].isContainer && i < |m[c].items| && m[c].items[i] == x && x in m
    requires b == Bump(m, c, WeightChange(m[x], m[x]), PokemonChange(m[x], m[x], true))
    requires w.Keys == b.Keys && w[x] == b[x].(parent := None)
    requires forall r {:trigger w[r]} :: r in b && r != x ==> w[r] == b[r]
    ensures w == SelfReplaced(m, c, i)
  {
    assert w == b[x := b[x].(parent := None)];
  }

  lemma HeldHere(m: World<Item>, c: Item, i: int)
    requires Shape(m) && c in m && 0 <= i < |m[c].items|
    ensures m[c].items[i] in m && m[m[c].items[i]].parent == Some(c) && m[c].items[i] != c
    ensures forall j :: 0 <= j < |m[c].items| && m[c].items[j] == m[c].items[i] ==> j == i
  {
    assert Linked(m, c);
  }

  lemma Detached(a: World<Item>, c: Item, i: nat, w: World<Item>)
    requires Shape(a) && c in a && i < |a[c].items| && a[c].items[i] in a && a[c].items[i] != c
    requires w.Keys == a.Keys && w[a[c].items[i]] == a[a[c].items[i]].(parent := None)
    requires w[c] == a[c].(items := a[c].items[..i] + a[c].items[i + 1..])
    requires forall r {:trigger w[r]} :: r in a && r != c && r != a[c].items[i] ==> w[r] == a[r]
    ensures w == Detach(a, c, i)
  {
  }

  lemma Attached(m: World<Item>, c: Item, x: Item, i: nat, w: World<Item>)
    requires CanAttach(m, c, x, i) && w.Keys == m.Keys
    requires forall r {:trigger w[r]} :: r in m ==> w[r] == AttachedNode(m, c, x, i, r)
    ensures w == Attach(m, c, x, i) && Shape(w)
    ensures w[x].Share(Weight) == m[x].Share(Weight) && w[x].Share(Pokemon) == m[x].Share(Pokemon)
  {
    assert w == Attach(m, c, x, i);
    AttachShape(m, c, x, i);
  }
}
