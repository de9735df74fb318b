/** How much of each kind a container holds, and how much more of it would fit. */
module Stacks {
  import opened Options
  import opened Sums
  import opened Forest

  /** Units counts a kind; Gap is what the stacks x could merge with still take. */
  datatype Measure<R> = Units(kind: Kind) | Gap(x: R, kind: Kind)

  function Reading<R(==)>(n: Node<R>, y: R, q: Measure<R>): int {
    match q
    case Units(kind) => if n.kind != kind then 0 else if kind.stackable then n.count else 1
    case Gap(x, kind) => if y != x && n.kind == kind && n.count < kind.maxCount then kind.maxCount - n.count else 0
  }

  ghost function Readings<R>(m: World<R>, s: seq<R>, q: Measure<R>): (f: seq<int>)
    requires forall i :: 0 <= i < |s| ==> s[i] in m
    ensures |f| == |s| && forall i :: 0 <= i < |s| ==> f[i] == Reading(m[s[i]], s[i], q)
  {
    if s == [] then [] else [Reading(m[s[0]], s[0], q)] + Readings(m, s[1..], q)
  }

  ghost function Tally<R>(m: World<R>, s: seq<R>, q: Measure<R>): int
    requires forall i :: 0 <= i < |s| ==> s[i] in m
  {
    Sum(Readings(m, s, q))
  }

  /** Every stack holds at least one and at most its maximum. */
  ghost predicate StacksOk<R>(m: World<R>) {
    forall r {:trigger m[r]} :: r in m && m[r].kind.stackable ==> 1 <= m[r].count <= m[r].kind.maxCount
  }

  lemma TallyMatch<R>(m: World<R>, w: World<R>, s: seq<R>, q: Measure<R>)
    requires forall i :: 0 <= i < |s| ==>
      s[i] in m && s[i] in w && w[s[i]].kind == m[s[i]].kind && w[s[i]].count == m[s[i]].count
    ensures Tally(w, s, q) == Tally(m, s, q)
  {
    assert Readings(w, s, q) == Readings(m, s, q);
  }

  lemma TallyInsert<R>(m: World<R>, s: seq<R>, x: R, q: Measure<R>)
    requires x in m && forall i :: 0 <= i < |s| ==> s[i] in m
    ensures Tally(m, [x] + s, q) == Tally(m, s, q) + Reading(m[x], x, q)
  {
    assert ([x] + s)[1..] == s;
  }

  lemma TallyDelete<R>(m: World<R>, s: seq<R>, i: nat, q: Measure<R>)
    requires i < |s| && forall j :: 0 <= j < |s| ==> s[j] in m
    ensures Tally(m, s[..i] + s[i + 1..], q) == Tally(m, s, q) - Reading(m[s[i]], s[i], q)
  {
    var f := Readings(m, s, q);
    SumRemove(f, i);
    assert f[..i] + f[i + 1..] == Readings(m, s[..i] + s[i + 1..], q);
  }

  /** Only the reading of x changes when x alone is rewritten. */
  lemma TallyRewrite<R>(m: World<R>, w: World<R>, s: seq<R>, i: nat, q: Measure<R>)
    requires i < |s| && forall j :: 0 <= j < |s| ==> s[j] in m && s[j] in w
    requires forall j :: 0 <= j < |s| && j != i ==> w[s[j]].kind == m[s[j]].kind && w[s[j]].count == m[s[j]].count
    ensures Tally(w, s, q) == Tally(m, s, q) - Reading(m[s[i]], s[i], q) + Reading(w[s[i]], s[i], q)
  {
    var f, g := Readings(m, s, q), Readings(w, s, q);
    assert g == f[i := g[i]];
    SumUpdate(f, i, g[i]);
  }

  lemma {:induction false} TallyPrefix<R>(m: World<R>, s: seq<R>, i: nat, q: Measure<R>)
    requires i < |s| && forall j :: 0 <= j < |s| ==> s[j] in m
    ensures Tally(m, s[..i + 1], q) == Tally(m, s[..i], q) + Reading(m[s[i]], s[i], q)
  {
    var f := Readings(m, s, q);
    assert Readings(m, s[..i + 1], q) == f[..i] + [f[i]];
    assert Readings(m, s[..i], q) == f[..i];
    SumConcat(f[..i], [f[i]]);
    assert Sum([f[i]]) == f[i];
  }

  // ---------- what every container holds, before and after ----------

  /** The tally over what r holds directly. */
  ghost function Held<R>(m: World<R>, r: R, q: Measure<R>): int
    requires Shape(m) && r in m
  {
    assert Linked(m, r);
    Tally(m, m[r].items, q)
  }

  lemma HeldElsewhere<R>(m: World<R>, w: World<R>, r: R, q: Measure<R>)
    requires Shape(m) && Shape(w) && r in m && r in w && w[r].items == m[r].items
    requires forall i :: 0 <= i < |m[r].items| ==>
      m[r].items[i] in m && m[r].items[i] in w &&
      w[m[r].items[i]].kind == m[m[r].items[i]].kind && w[m[r].items[i]].count == m[m[r].items[i]].count
    ensures Held(w, r, q) == Held(m, r, q)
  {
    TallyMatch(m, w, m[r].items, q);
  }

  /** Adding x in front of c's items: only c holds more, by x's reading. */
  lemma AddHeld<R>(m: World<R>, c: R, x: R, w: World<R>, r: R, q: Measure<R>)
    requires CanAttach(m, c, x, 0) && w == AddItem(m, c, x, 0) && r in m
    ensures Held(w, r, q) == Held(m, r, q) + if r == c then Reading(m[x], x, q) else 0
  {
    assert Linked(m, r) && Linked(m, c);
    AddStacks(m, c, x, w);
    if r == c {
      HeldWith(m, w, c, x, m[c].items, [x] + m[c].items, q);
    } else {
      HeldElsewhere(m, w, r, q);
    }
  }

  lemma AddStacks<R>(m: World<R>, c: R, x: R, w: World<R>)
    requires CanAttach(m, c, x, 0) && w == AddItem(m, c, x, 0)
    ensures forall y {:trigger w[y]} :: y in m ==> w[y].kind == m[y].kind && w[y].count == m[y].count
    ensures forall y {:trigger w[y]} :: y in m && y != c ==> w[y].items == m[y].items
    ensures w[c].items == [x] + m[c].items
  {
    var items := m[c].items;
    assert items[..0] + [x] + items[0..] == [x] + items;
    assert w[c].Strip() == m[c].Strip().(items := [x] + items);
    assert w[x].Strip() == m[x].Strip().(parent := Some(c));
    forall y | y in m && y != c && y != x
      ensures w[y].kind == m[y].kind && w[y].count == m[y].count && w[y].items == m[y].items
    {
      assert w[y].Strip() == m[y].Strip();
    }
  }

  lemma HeldWith<R>(m: World<R>, w: World<R>, c: R, x: R, items: seq<R>, more: seq<R>, q: Measure<R>)
    requires Shape(m) && Shape(w) && c in m && c in w && x in m && more == [x] + items && w.Keys == m.Keys
    requires m[c].items == items && w[c].items == more && Linked(m, c)
    requires forall y {:trigger w[y]} :: y in m ==> w[y].kind == m[y].kind && w[y].count == m[y].count
    ensures Held(w, c, q) == Held(m, c, q) + Reading(m[x], x, q)
  {
    assert Linked(w, c);
    TallyMatch(m, w, more, q);
    TallyInsert(m, items, x, q);
  }

  lemma RemoveHeld<R>(m: World<R>, c: R, x: R, i: nat, w: World<R>, r: R, q: Measure<R>)
    requires Shape(m) && c in m && i < |m[c].items| && m[c].items[i] == x && w == RemoveItem(m, c, i) && r in m
    ensures x in m && Held(w, r, q) == Held(m, r, q) - if r == c then Reading(m[x], x, q) else 0
  {
    assert Linked(m, r) && Linked(m, c);
    RemoveStacks(m, c, x, i, w);
    if r == c {
      var items := m[c].items;
      HeldWithout(m, w, c, x, i, items, items[..i] + items[i + 1..], q);
    } else {
      HeldElsewhere(m, w, r, q);
    }
  }

  lemma HeldWithout<R>(m: World<R>, w: World<R>, c: R, x: R, i: nat, items: seq<R>, rest: seq<R>, q: Measure<R>)
    requires Shape(m) && Shape(w) && c in m && c in w && i < |items| && items[i] == x
    requires rest == items[..i] + items[i + 1..]
    requires m[c].items == items && w[c].items == rest && Linked(m, c) && w.Keys == m.Keys
    requires forall y {:trigger w[y]} :: y in m ==> w[y].kind == m[y].kind && w[y].count == m[y].count
    ensures x in m && Held(w, c, q) == Held(m, c, q) - Reading(m[x], x, q)
  {
    assert Linked(w, c);
    TallyMatch(m, w, rest, q);
    TallyDelete(m, items, i, q);
  }

  lemma RemoveStacks<R>(m: World<R>, c: R, x: R, i: nat, w: World<R>)
    requires Shape(m) && c in m && i < |m[c].items| && m[c].items[i] == x && w == RemoveItem(m, c, i)
    ensures forall y {:trigger w[y]} :: y in m ==> w[y].kind == m[y].kind && w[y].count == m[y].count
    ensures forall y {:trigger w[y]} :: y in m && y != c ==> w[y].items == m[y].items
    ensures w[c].items == m[c].items[..i] + m[c].items[i + 1..]
  {
    assert w[c].Strip() == m[c].Strip().(items := m[c].items[..i] + m[c].items[i + 1..]);
    assert w[x].Strip() == m[x].Strip().(parent := None);
    forall y | y in m && y != c && y != x
      ensures w[y].kind == m[y].kind && w[y].count == m[y].count && w[y].items == m[y].items
    {
      assert w[y].Strip() == m[y].Strip();
    }
  }

  lemma RewriteStacks<R>(m: World<R>, c: R, x: R, kind: Kind, count: nat, signedByte: bool, w: World<R>)
    requires CanUpdate(m, c, x, kind) && w == RewriteWorld(m, c, x, kind, count, signedByte)
    ensures w[x].kind == kind && w[x].count == count
    ensures forall y {:trigger w[y]} :: y in m && y != x ==> w[y].kind == m[y].kind && w[y].count == m[y].count
    ensures forall y {:trigger w[y]} :: y in m ==> w[y].items == m[y].items
  {
    assert w[x].Strip() == m[x].Strip().(kind := kind, count := count);
    forall y | y in m && y != x
      ensures w[y].kind == m[y].kind && w[y].count == m[y].count && w[y].items == m[y].items
    {
      assert w[y].Strip() == m[y].Strip();
    }
  }

  lemma RewriteHeld<R>(m: World<R>, c: R, x: R, kind: Kind, count: nat, signedByte: bool, w: World<R>,
                       r: R, q: Measure<R>)
    requires CanUpdate(m, c, x, kind) && w == RewriteWorld(m, c, x, kind, count, signedByte) && r in m
    ensures Held(w, r, q) ==
      Held(m, r, q) + if r == c then Reading(w[x], x, q) - Reading(m[x], x, q) else 0
  {
    ParentOf(m, x);
    assert Linked(m, r);
    assert w[r].Strip().items == m[r].Strip().items;
    if r == c {
      var i :| 0 <= i < |m[c].items| && m[c].items[i] == x;
      forall j | 0 <= j < |m[c].items| && j != i
        ensures w[m[c].items[j]].kind == m[m[c].items[j]].kind && w[m[c].items[j]].count == m[m[c].items[j]].count
      {
        assert w[m[c].items[j]].Strip() == m[m[c].items[j]].Strip();
      }
      TallyRewrite(m, w, m[c].items, i, q);
    } else {
      assert x !in m[r].items;
      forall j | 0 <= j < |m[r].items|
        ensures w[m[r].items[j]].kind == m[m[r].items[j]].kind && w[m[r].items[j]].count == m[m[r].items[j]].count
      {
        assert w[m[r].items[j]].Strip() == m[m[r].items[j]].Strip();
      }
      HeldElsewhere(m, w, r, q);
    }
  }

  /** Bringing a new parentless and empty item into the world. */
  ghost predicate Born<R>(m: World<R>, x: R, n: Node<R>, w: World<R>) {
    && x !in m && w == m[x := n] && n.parent.None? && n.items == [] && n.weight == 0 && n.pokemon == 0
    && (n.isContainer ==> !n.kind.stackable)
  }

  lemma BornKeeps<R>(m: World<R>, x: R, n: Node<R>, w: World<R>)
    requires Shape(m) && Born(m, x, n, w)
    ensures Shape(w)
    ensures forall k: Cache {:trigger CachesOk(w, k)} :: CachesOk(m, k) ==> CachesOk(w, k)
    ensures forall r, q {:trigger Held(w, r, q)} :: r in m ==> Held(w, r, q) == Held(m, r, q)
    ensures StacksOk(m) && (n.kind.stackable ==> 1 <= n.count <= n.kind.maxCount) ==> StacksOk(w)
  {
    forall r | r in w ensures Linked(w, r) {
      if r != x {
        assert Linked(m, r);
      }
    }
    forall r, q | r in m ensures Held(w, r, q) == Held(m, r, q) {
      assert Linked(m, r);
      HeldElsewhere(m, w, r, q);
    }
    forall k: Cache | CachesOk(m, k) ensures CachesOk(w, k) {
      forall r | r in w ensures CacheOk(w, k, r) {
        BornCache(m, x, n, w, k, r);
      }
    }
  }

  lemma BornCache<R>(m: World<R>, x: R, n: Node<R>, w: World<R>, k: Cache, r: R)
    requires Shape(m) && Born(m, x, n, w) && Shape(w) && CachesOk(m, k) && r in w
    ensures CacheOk(w, k, r)
  {
    assert Linked(w, r);
    if r != x {
      assert Linked(m, r) && CacheOk(m, k, r);
      SharesMatch(m, w, k, m[r].items);
    }
  }

  /** Taking x out of its container changes nothing about what lies inside x. */
  lemma {:induction false} WithinAfterRemove<R>(m: World<R>, c: R, x: R, i: nat, w: World<R>, r: R)
    requires Shape(m) && c in m && i < |m[c].items| && m[c].items[i] == x && w == RemoveItem(m, c, i) && r in m
    requires Within(w, r, x)
    ensures Within(m, r, x)
    decreases w[r].depth
  {
    if r != x {
      assert w[r].Strip().parent == m[r].Strip().parent;
      ParentOf(w, r);
      WithinAfterRemove(m, c, x, i, w, w[r].parent.value);
    }
  }
}
