/**
 * The item forest as a value: what every item and container of a world looks like at one moment,
 * with the weight and pokemon caches that containers keep over their contents.
 */
module Forest {
  import opened Options
  import opened Words
  import opened Sums

  /** An item type together with the attributes that two stacks must share to merge. */
  datatype Kind = Kind(id: nat, attributes: nat, stackable: bool, maxCount: nat, baseWeight: nat,
                       pokemonId: nat, pickupable: bool, moveable: bool)

  /** The two numbers a container caches. */
  datatype Cache = Weight | Pokemon

  /** `depth` is not part of the program: it witnesses that no item lies inside itself. */
  datatype Node<R> = Node(kind: Kind, count: nat, parent: Option<R>, isContainer: bool, capacity: nat,
                          items: seq<R>, weight: Word, pokemon: Word, depth: nat)
  {
    /** The item without its caches. */
    function Strip(): Node<R> {
      this.(weight := 0, pokemon := 0, depth := 0)
    }

    function Cached(k: Cache): Word {
      match k
      case Weight => weight
      case Pokemon => pokemon
    }

    function SetCached(k: Cache, v: Word): Node<R> {
      match k
      case Weight => this.(weight := v)
      case Pokemon => this.(pokemon := v)
    }

    /** What the item adds without its contents. */
    function Own(k: Cache): int {
      match k
      case Weight => if kind.stackable then kind.baseWeight * (if count > 1 then count else 1) else kind.baseWeight
      case Pokemon => if isContainer || kind.pokemonId == 0 then 0 else 1
    }

    /** What the item adds to the cache of the container around it. */
    function Share(k: Cache): Word {
      U32(Own(k) + if isContainer then Cached(k) as int else 0)
    }
  }

  type World<R> = map<R, Node<R>>

  // ---------- invariants ----------

  ghost predicate Linked<R>(m: World<R>, r: R)
    requires r in m
  {
    var n := m[r];
    && (n.parent.Some? ==>
          n.parent.value in m && m[n.parent.value].isContainer && r in m[n.parent.value].items)
    && (forall i :: 0 <= i < |n.items| ==>
          n.items[i] in m && m[n.items[i]].parent == Some(r) && n.depth < m[n.items[i]].depth)
    && (forall i, j :: 0 <= i < j < |n.items| ==> n.items[i] != n.items[j])
    && (n.isContainer ==> !n.kind.stackable)
    && (!n.isContainer ==> n.items == [])
  }

  /** Parent and child links agree, no item is held twice, and none lies inside itself. */
  ghost predicate Shape<R>(m: World<R>) {
    forall r {:trigger Linked(m, r)} :: r in m ==> Linked(m, r)
  }

  ghost function Shares<R>(m: World<R>, k: Cache, s: seq<R>): (f: seq<int>)
    requires forall i :: 0 <= i < |s| ==> s[i] in m
    ensures |f| == |s| && forall i :: 0 <= i < |s| ==> f[i] == m[s[i]].Share(k)
  {
    if s == [] then [] else [m[s[0]].Share(k) as int] + Shares(m, k, s[1..])
  }

  ghost predicate CacheOk<R>(m: World<R>, k: Cache, r: R)
    requires Shape(m) && r in m
  {
    assert Linked(m, r);
    m[r].isContainer ==> m[r].Cached(k) == U32(Sum(Shares(m, k, m[r].items)))
  }

  ghost predicate CachesOk<R>(m: World<R>, k: Cache)
    requires Shape(m)
  {
    forall r {:trigger CacheOk(m, k, r)} :: r in m ==> CacheOk(m, k, r)
  }

  ghost predicate SameLinks<R>(m: World<R>, w: World<R>) {
    && w.Keys == m.Keys
    && (forall r :: r in m ==> w[r] == m[r].(weight := w[r].weight, pokemon := w[r].pokemon))
  }

  lemma SameLinksShape<R>(m: World<R>, w: World<R>)
    requires Shape(m) && SameLinks(m, w)
    ensures Shape(w)
  {
    forall r | r in w ensures Linked(w, r) {
      assert Linked(m, r);
    }
  }

  // ---------- upward propagation ----------

  /** When one summand grows by d modulo 2^32, a cached total that also grows by d stays as right as it was. */
  lemma CacheStep(total: int, s: seq<int>, i: nat, v: int, d: int)
    requires i < |s|
    requires U32(v) == U32(s[i] + d)
    ensures U32(total + d) == U32(Sum(s[i := v])) <==> U32(total) == U32(Sum(s))
  {
    SumUpdate(s, i, v);
    var rest := Sum(s) - s[i];
    U32Congruent(v, s[i] + d, rest);
    var a, b := Sum(s[i := v]), Sum(s);
    assert a == v + rest && s[i] + d + rest == b + d;
    assert U32(a) == U32(b + d);
    if U32(total) == U32(b) {
      U32Congruent(total, b, d);
    }
    if U32(total + d) == U32(b + d) {
      U32Congruent(total + d, b + d, -d);
    }
  }

  lemma ShareStep(own: int, cached: int, d: int)
    ensures U32(U32(own + U32(cached + d))) == U32(U32(own + cached) + d)
  {
    U32Add(cached + d, own);
    U32Add(own + cached, d);
  }

  lemma ShareBump<R>(n: Node<R>, k: Cache, d: int)
    requires n.isContainer
    ensures U32(n.SetCached(k, U32(n.Cached(k) + d)).Share(k)) == U32(n.Share(k) + d)
  {
    var n' := n.SetCached(k, U32(n.Cached(k) + d));
    assert n'.Own(k) == n.Own(k);
    assert n'.Cached(k) == U32(n.Cached(k) + d);
    ShareStep(n.Own(k), n.Cached(k), d);
  }

  lemma WordIsU32(x: Word)
    ensures U32(x) == x
  {
  }

  /** The sums of a node do not see a change of an item it does not hold. */
  lemma SharesElsewhere<R>(m: World<R>, w: World<R>, k: Cache, c: R, r: R)
    requires Shape(m) && SameLinks(m, w) && Shape(w) && c in m && r in m
    requires forall x :: x in m && x != c ==> w[x] == m[x]
    requires m[c].parent != Some(r)
    ensures Linked(m, r) && Linked(w, r)
    ensures Shares(w, k, w[r].items) == Shares(m, k, m[r].items)
  {
    assert Linked(m, r) && Linked(w, r);
    assert c !in m[r].items;
  }

  lemma SharesAtParent<R>(m: World<R>, w: World<R>, k: Cache, c: R, p: R, i: nat)
    requires Shape(m) && SameLinks(m, w) && Shape(w) && c in m && p in m && p != c
    requires forall x :: x in m && x != c ==> w[x] == m[x]
    requires i < |m[p].items| && m[p].items[i] == c
    ensures Linked(m, p) && Linked(w, p)
    ensures Shares(w, k, w[p].items) == Shares(m, k, m[p].items)[i := w[c].Share(k)]
  {
    assert Linked(m, p) && Linked(w, p);
    var a, b := Shares(w, k, w[p].items), Shares(m, k, m[p].items)[i := w[c].Share(k)];
    forall j | 0 <= j < |a| ensures a[j] == b[j] {
      assert j != i ==> m[p].items[j] != c;
    }
  }

  /** What adding d to one cache alone does to the containers around it. */
  lemma BumpOne<R>(m: World<R>, k: Cache, c: R, d: int, m1: World<R>)
    requires Shape(m) && c in m && m[c].isContainer
    requires m1 == m[c := m[c].SetCached(k, U32(m[c].Cached(k) + d))] && Shape(m1)
    ensures forall r {:trigger CacheOk(m1, k, r)} ::
      r in m && r != c && m[c].parent != Some(r) ==> (CacheOk(m1, k, r) <==> CacheOk(m, k, r))
    ensures Linked(m, c) && Linked(m1, c) && Shares(m1, k, m[c].items) == Shares(m, k, m[c].items)
  {
    forall r | r in m && m[c].parent != Some(r)
      ensures Linked(m, r) && Linked(m1, r)
      ensures Shares(m1, k, m[r].items) == Shares(m, k, m[r].items)
    {
      assert Linked(m, r);
      SharesElsewhere(m, m1, k, c, r);
    }
    assert Linked(m, c);
  }

  lemma BumpParent<R>(m: World<R>, k: Cache, c: R, d: int, m1: World<R>, p: R)
    requires Shape(m) && c in m && m[c].isContainer && m[c].parent == Some(p)
    requires m1 == m[c := m[c].SetCached(k, U32(m[c].Cached(k) + d))] && Shape(m1)
    ensures p in m && p != c && m[p].isContainer && m[p].depth < m[c].depth && Linked(m1, p)
    ensures U32(m[p].Cached(k) + d) == U32(Sum(Shares(m1, k, m[p].items))) <==> CacheOk(m, k, p)
  {
    assert Linked(m, c);
    assert Linked(m, p) && Linked(m1, p);
    var i :| 0 <= i < |m[p].items| && m[p].items[i] == c;
    var s, t, v := BumpedShares(m, k, c, d, m1, p, i);
    CachedStep(m[p].Cached(k), s, i, v, d, t);
  }

  /** The parent's shares before and after: only the i-th moved, by d. */
  lemma BumpedShares<R>(m: World<R>, k: Cache, c: R, d: int, m1: World<R>, p: R, i: nat)
    returns (s: seq<int>, t: seq<int>, v: int)
    requires Shape(m) && c in m && m[c].isContainer && p in m && p != c && i < |m[p].items| && m[p].items[i] == c
    requires m1 == m[c := m[c].SetCached(k, U32(m[c].Cached(k) + d))] && Shape(m1)
    ensures Linked(m, p) && Linked(m1, p) && s == Shares(m, k, m[p].items) && t == Shares(m1, k, m[p].items)
    ensures i < |s| && t == s[i := v] && U32(v) == U32(s[i] + d)
  {
    assert Linked(m, p) && Linked(m1, p);
    SharesAtParent(m, m1, k, c, p, i);
    ShareBump(m[c], k, d);
    s, t, v := Shares(m, k, m[p].items), Shares(m1, k, m[p].items), m1[c].Share(k);
  }

  lemma CachedStep(total: Word, s: seq<int>, i: nat, v: int, d: int, t: seq<int>)
    requires i < |s| && t == s[i := v] && U32(v) == U32(s[i] + d)
    ensures U32(total + d) == U32(Sum(t)) <==> total == U32(Sum(s))
  {
    CacheStep(total, s, i, v, d);
    WordIsU32(total);
  }

  /** From m to w every cache but c's stayed as right or wrong as it was; c's is right when d was what it lacked. */
  ghost predicate Repaired<R>(m: World<R>, w: World<R>, k: Cache, c: R, d: int)
    requires Shape(m) && Shape(w) && m.Keys == w.Keys && c in m
  {
    assert Linked(m, c);
    && (forall r {:trigger CacheOk(w, k, r)} :: r in m && r != c ==> (CacheOk(w, k, r) <==> CacheOk(m, k, r)))
    && (CacheOk(w, k, c) <==> U32(m[c].Cached(k) + d) == U32(Sum(Shares(m, k, m[c].items))))
  }

  lemma RepairedStep<R>(m: World<R>, k: Cache, c: R, d: int, m1: World<R>, p: R, w: World<R>)
    requires Shape(m) && c in m && m[c].isContainer && m[c].parent == Some(p)
    requires m1 == m[c := m[c].SetCached(k, U32(m[c].Cached(k) + d))]
    requires Shape(m1) && SameLinks(m1, w) && Shape(w) && p in m && Repaired(m1, w, k, p, d)
    requires forall r {:trigger w[r]} :: r in m && m[r].depth >= m[c].depth ==> w[r] == m1[r]
    ensures Repaired(m, w, k, c, d)
  {
    BumpOne(m, k, c, d, m1);
    BumpParent(m, k, c, d, m1, p);
    SharesBelow(m1, w, k, c);
    forall r | r in m && r != c
      ensures CacheOk(w, k, r) <==> CacheOk(m, k, r)
    {
      assert CacheOk(w, k, r) && r != p ==> CacheOk(m1, k, r);
    }
  }

  lemma RepairedTop<R>(m: World<R>, k: Cache, c: R, d: int, m1: World<R>)
    requires Shape(m) && c in m && m[c].isContainer && m[c].parent.None?
    requires m1 == m[c := m[c].SetCached(k, U32(m[c].Cached(k) + d))] && Shape(m1)
    ensures Repaired(m, m1, k, c, d)
  {
    BumpOne(m, k, c, d, m1);
  }

  /**
   * Adding d to the cache of c and of every container around it leaves every other cache as right or
   * wrong as it was.
   */
  ghost function Propagate<R>(m: World<R>, k: Cache, c: R, d: int): (w: World<R>)
    requires Shape(m) && c in m && m[c].isContainer
    ensures SameLinks(m, w) && Shape(w)
    ensures forall r {:trigger w[r]} :: r in m ==> w[r] == m[r].SetCached(k, w[r].Cached(k))
    ensures w[c] == m[c].SetCached(k, U32(m[c].Cached(k) + d))
    ensures forall r {:trigger w[r]} :: r in m && r != c && m[r].depth >= m[c].depth ==> w[r] == m[r]
    ensures Repaired(m, w, k, c, d)
    decreases m[c].depth
  {
    var m1 := m[c := m[c].SetCached(k, U32(m[c].Cached(k) + d))];
    SameLinksShape(m, m1);
    if m[c].parent.None? then
      RepairedTop(m, k, c, d, m1);
      m1
    else
      var p := m[c].parent.value;
      ParentOf(m, c);
      var w := Propagate(m1, k, p, d);
      RepairedStep(m, k, c, d, m1, p, w);
      w
  }

  lemma ParentOf<R>(m: World<R>, c: R)
    requires Shape(m) && c in m && m[c].parent.Some?
    ensures m[c].parent.value in m && m[m[c].parent.value].isContainer && c != m[c].parent.value
    ensures c in m[m[c].parent.value].items && m[m[c].parent.value].depth < m[c].depth
  {
    assert Linked(m, c);
    assert Linked(m, m[c].parent.value);
  }

  lemma SharesBelow<R>(m: World<R>, w: World<R>, k: Cache, c: R)
    requires Shape(m) && SameLinks(m, w) && Shape(w) && c in m
    requires forall r :: r in m && m[r].depth >= m[c].depth ==> w[r] == m[r]
    ensures Linked(m, c) && Linked(w, c)
    ensures Shares(w, k, w[c].items) == Shares(m, k, m[c].items)
  {
    assert Linked(m, c) && Linked(w, c);
  }

  // ---------- moving items in and out ----------

  /** Does r lie inside a, at any depth? Every item lies inside itself. */
  ghost predicate Within<R>(m: World<R>, r: R, a: R)
    requires Shape(m) && r in m
    decreases m[r].depth
  {
    r == a || (m[r].parent.Some? && (ParentOf(m, r); Within(m, m[r].parent.value, a)))
  }

  /** Putting the parentless item x at position i of container c. */
  ghost function Attach<R>(m: World<R>, c: R, x: R, i: nat): (w: World<R>)
    requires Shape(m) && c in m && x in m && i <= |m[c].items|
    requires m[c].isContainer && m[x].parent.None? && !Within(m, c, x)
    ensures w.Keys == m.Keys
  {
    map r | r in m :: AttachedNode(m, c, x, i, r)
  }

  /** What the attachment makes of the single item r. */
  ghost function AttachedNode<R>(m: World<R>, c: R, x: R, i: nat, r: R): Node<R>
    requires Shape(m) && c in m && i <= |m[c].items| && r in m
  {
    var n := if Within(m, r, x) then m[r].(depth := m[r].depth + m[c].depth + 1) else m[r];
    if r == x then n.(parent := Some(c))
    else if r == c then n.(items := m[c].items[..i] + [x] + m[c].items[i..])
    else n
  }

  /** Taking the item at position i out of container c. */
  ghost function Detach<R>(m: World<R>, c: R, i: nat): (w: World<R>)
    requires Shape(m) && c in m && i < |m[c].items|
    ensures w.Keys == m.Keys
  {
    assert Linked(m, c);
    var x := m[c].items[i];
    m[c := m[c].(items := m[c].items[..i] + m[c].items[i + 1..])][x := m[x].(parent := None)]
  }

  ghost function Restack<R>(m: World<R>, x: R, kind: Kind, count: nat): (w: World<R>)
    requires x in m
    ensures w.Keys == m.Keys
  {
    m[x := m[x].(kind := kind, count := count)]
  }

  ghost predicate CanAttach<R>(m: World<R>, c: R, x: R, i: nat) {
    && Shape(m) && c in m && x in m && i <= |m[c].items|
    && m[c].isContainer && m[x].parent.None? && !Within(m, c, x)
  }

  lemma AttachChild<R>(m: World<R>, c: R, x: R, i: nat, r: R, y: R)
    requires CanAttach(m, c, x, i) && r in m && y in m && m[y].parent == Some(r) && m[r].depth < m[y].depth
    ensures var w := Attach(m, c, x, i); w[y].parent == Some(r) && w[r].depth < w[y].depth
  {
    assert Within(m, y, x) <==> Within(m, r, x);
  }

  lemma AttachItems<R>(m: World<R>, c: R, x: R, i: nat, r: R)
    requires CanAttach(m, c, x, i) && r in m
    ensures var w := Attach(m, c, x, i);
      && (forall j :: 0 <= j < |w[r].items| ==>
            w[r].items[j] in w && w[w[r].items[j]].parent == Some(r) && w[r].depth < w[w[r].items[j]].depth)
      && (forall j, l :: 0 <= j < l < |w[r].items| ==> w[r].items[j] != w[r].items[l])
  {
    var w := Attach(m, c, x, i);
    assert Linked(m, r);
    assert x !in m[r].items;
    forall j | 0 <= j < |w[r].items|
      ensures w[r].items[j] in w && w[w[r].items[j]].parent == Some(r) && w[r].depth < w[w[r].items[j]].depth
    {
      var y := w[r].items[j];
      if y != x {
        assert y in m[r].items;
        AttachChild(m, c, x, i, r, y);
      }
    }
  }

  lemma AttachParent<R>(m: World<R>, c: R, x: R, i: nat, r: R)
    requires CanAttach(m, c, x, i) && r in m
    ensures var w := Attach(m, c, x, i);
      w[r].parent.Some? ==>
        var p := w[r].parent.value; p in w && w[p].isContainer && r in w[p].items
  {
    var w := Attach(m, c, x, i);
    if r == x {
      assert w[c].items[i] == x;
    } else if m[r].parent.Some? {
      ParentOf(m, r);
      if m[r].parent == Some(c) {
        var j :| 0 <= j < |m[c].items| && m[c].items[j] == r;
        assert w[c].items[if j < i then j else j + 1] == r;
      }
    }
  }

  lemma AttachShape<R>(m: World<R>, c: R, x: R, i: nat)
    requires CanAttach(m, c, x, i)
    ensures Shape(Attach(m, c, x, i))
  {
    var w := Attach(m, c, x, i);
    forall r | r in w ensures Linked(w, r) {
      assert Linked(m, r);
      AttachItems(m, c, x, i, r);
      AttachParent(m, c, x, i, r);
    }
  }

  lemma SharesMatch<R>(m: World<R>, w: World<R>, k: Cache, s: seq<R>)
    requires forall i :: 0 <= i < |s| ==> s[i] in m && s[i] in w && w[s[i]].Share(k) == m[s[i]].Share(k)
    ensures Shares(w, k, s) == Shares(m, k, s)
  {
  }

  lemma SharesDelete<R>(m: World<R>, k: Cache, s: seq<R>, i: nat)
    requires i < |s| && forall j :: 0 <= j < |s| ==> s[j] in m
    ensures Sum(Shares(m, k, s[..i] + s[i + 1..])) == Sum(Shares(m, k, s)) - m[s[i]].Share(k)
  {
    var before, after := Shares(m, k, s), Shares(m, k, s[..i] + s[i + 1..]);
    SumRemove(before, i);
    forall j | 0 <= j < |after| ensures after[j] == (before[..i] + before[i + 1..])[j] {
      assert (s[..i] + s[i + 1..])[j] == s[if j < i then j else j + 1];
    }
    assert before[..i] + before[i + 1..] == after;
  }

  lemma SharesInsert<R>(m: World<R>, k: Cache, s: seq<R>, x: R, i: nat)
    requires i <= |s| && x in m && forall j :: 0 <= j < |s| ==> s[j] in m
    ensures Sum(Shares(m, k, s[..i] + [x] + s[i..])) == Sum(Shares(m, k, s)) + m[x].Share(k)
  {
    var t := s[..i] + [x] + s[i..];
    SharesDelete(m, k, t, i);
    assert t[..i] + t[i + 1..] == s;
  }

  lemma AttachElsewhere<R>(m: World<R>, k: Cache, c: R, x: R, i: nat, w: World<R>, r: R)
    requires CanAttach(m, c, x, i) && w == Attach(m, c, x, i) && Shape(w) && r in m && r != c
    ensures CacheOk(w, k, r) <==> CacheOk(m, k, r)
  {
    assert Linked(m, r) && Linked(w, r);
    assert w[r].items == m[r].items;
    SharesMatch(m, w, k, m[r].items);
  }

  lemma AttachSum<R>(m: World<R>, k: Cache, c: R, x: R, i: nat, w: World<R>)
    requires CanAttach(m, c, x, i) && w == Attach(m, c, x, i) && Shape(w)
    ensures Linked(m, c) && Linked(w, c)
    ensures Sum(Shares(w, k, w[c].items)) == Sum(Shares(m, k, m[c].items)) + m[x].Share(k)
  {
    assert Linked(m, c) && Linked(w, c);
    SharesMatch(m, w, k, w[c].items);
    SharesInsert(m, k, m[c].items, x, i);
  }

  lemma DetachShape<R>(m: World<R>, c: R, i: nat)
    requires Shape(m) && c in m && i < |m[c].items|
    ensures Shape(Detach(m, c, i))
    ensures Linked(m, c) && Detach(m, c, i)[m[c].items[i]].parent.None?
  {
    var w := Detach(m, c, i);
    assert Linked(m, c);
    var x := m[c].items[i];
    forall r | r in w ensures Linked(w, r) {
      DetachLinked(m, c, i, r);
    }
  }

  lemma DetachLinked<R>(m: World<R>, c: R, i: nat, r: R)
    requires Shape(m) && c in m && i < |m[c].items| && r in m
    ensures Linked(Detach(m, c, i), r)
  {
    assert Linked(m, c) && Linked(m, r);
    DetachParent(m, c, i, r);
  }

  lemma DetachParent<R>(m: World<R>, c: R, i: nat, r: R)
    requires Shape(m) && c in m && i < |m[c].items| && r in m
    ensures var w := Detach(m, c, i);
      w[r].parent.Some? ==>
        var p := w[r].parent.value; p in w && w[p].isContainer && r in w[p].items
  {
    var w := Detach(m, c, i);
    assert Linked(m, c);
    if m[r].parent.Some? && r != m[c].items[i] {
      ParentOf(m, r);
      if m[r].parent == Some(c) {
        var j :| 0 <= j < |m[c].items| && m[c].items[j] == r;
        assert w[c].items[if j < i then j else j - 1] == r;
      }
    }
  }

  lemma DetachElsewhere<R>(m: World<R>, k: Cache, c: R, i: nat, w: World<R>, r: R)
    requires Shape(m) && c in m && i < |m[c].items| && w == Detach(m, c, i) && Shape(w) && r in m && r != c
    ensures CacheOk(w, k, r) <==> CacheOk(m, k, r)
  {
    assert Linked(m, r) && Linked(w, r) && Linked(m, c);
    assert w[r].items == m[r].items;
    SharesMatch(m, w, k, m[r].items);
  }

  lemma DetachSum<R>(m: World<R>, k: Cache, c: R, i: nat, w: World<R>)
    requires Shape(m) && c in m && i < |m[c].items| && w == Detach(m, c, i) && Shape(w)
    ensures Linked(m, c) && Linked(w, c)
    ensures Sum(Shares(w, k, w[c].items)) == Sum(Shares(m, k, m[c].items)) - m[m[c].items[i]].Share(k)
  {
    assert Linked(m, c) && Linked(w, c);
    SharesMatch(m, w, k, w[c].items);
    SharesDelete(m, k, m[c].items, i);
  }

  // ---------- the container operations and their caches ----------

  /** Both caches moved by their own differences, from c upwards. */
  ghost function Bump<R>(m: World<R>, c: R, dw: int, dp: int): (w: World<R>)
    requires Shape(m) && c in m && m[c].isContainer
    ensures SameLinks(m, w) && Shape(w)
    ensures w[c].weight == U32(m[c].weight + dw) && w[c].pokemon == U32(m[c].pokemon + dp)
    ensures forall r {:trigger w[r]} :: r in m && r != c && m[r].depth >= m[c].depth ==> w[r] == m[r]
  {
    Propagate(Propagate(m, Weight, c, dw), Pokemon, c, dp)
  }

  function Diff(k: Cache, dw: int, dp: int): int {
    match k
    case Weight => dw
    case Pokemon => dp
  }

  lemma OtherCacheAt<R>(m: World<R>, k: Cache, c: R, d: int, k': Cache, w: World<R>, r: R)
    requires Shape(m) && c in m && m[c].isContainer && k' != k && w == Propagate(m, k, c, d) && r in m
    ensures Linked(m, r) && Linked(w, r) && Shares(w, k', w[r].items) == Shares(m, k', m[r].items)
    ensures CacheOk(w, k', r) <==> CacheOk(m, k', r)
  {
    assert Linked(m, r) && Linked(w, r);
    forall x | x in m ensures w[x].Share(k') == m[x].Share(k') {
      OtherShare(m[x], k, w[x].Cached(k), k');
    }
    SharesMatch(m, w, k', m[r].items);
    assert w[r].Cached(k') == m[r].Cached(k');
  }

  lemma OtherShare<R>(n: Node<R>, k: Cache, v: Word, k': Cache)
    requires k' != k
    ensures n.SetCached(k, v).Share(k') == n.Share(k') && n.SetCached(k, v).Cached(k') == n.Cached(k')
  {
  }

  lemma BumpRepairs<R>(m: World<R>, c: R, dw: int, dp: int, k: Cache)
    requires Shape(m) && c in m && m[c].isContainer
    ensures Repaired(m, Bump(m, c, dw, dp), k, c, Diff(k, dw, dp))
  {
    var b := Propagate(m, Weight, c, dw);
    var w := Propagate(b, Pokemon, c, dp);
    match k {
      case Weight => RepairsFirst(m, c, dw, dp, b, w);
      case Pokemon => RepairsSecond(m, c, dw, dp, b, w);
    }
  }

  lemma RepairsFirst<R>(m: World<R>, c: R, dw: int, dp: int, b: World<R>, w: World<R>)
    requires Shape(m) && c in m && m[c].isContainer && b == Propagate(m, Weight, c, dw)
    requires w == Propagate(b, Pokemon, c, dp)
    ensures Repaired(m, w, Weight, c, dw)
  {
    forall r | r in m ensures CacheOk(w, Weight, r) <==> CacheOk(b, Weight, r) {
      OtherCacheAt(b, Pokemon, c, dp, Weight, w, r);
    }
  }

  lemma RepairsSecond<R>(m: World<R>, c: R, dw: int, dp: int, b: World<R>, w: World<R>)
    requires Shape(m) && c in m && m[c].isContainer && b == Propagate(m, Weight, c, dw)
    requires w == Propagate(b, Pokemon, c, dp)
    ensures Repaired(m, w, Pokemon, c, dp)
  {
    forall r | r in m ensures CacheOk(b, Pokemon, r) <==> CacheOk(m, Pokemon, r) {
      OtherCacheAt(m, Weight, c, dw, Pokemon, b, r);
    }
    OtherCacheAt(m, Weight, c, dw, Pokemon, b, c);
  }

  lemma OnlyAt<R>(w: World<R>, k: Cache, c: R)
    requires Shape(w) && c in w
    requires forall r {:trigger CacheOk(w, k, r)} :: r in w && r != c ==> CacheOk(w, k, r)
    ensures CachesOk(w, k) <==> CacheOk(w, k, c)
  {
  }

  /** A cached total moved by d is right for a sum moved by `share` exactly when d and share agree modulo 2^32. */
  lemma DeltaExact(total: int, sum: int, share: int, d: int)
    requires total == U32(sum)
    ensures U32(total + d) == U32(sum + share) <==> U32(d) == U32(share)
  {
    WordIsU32(total);
    U32Congruent(total, sum, d);
    if U32(d) == U32(share) {
      U32Congruent(d, share, sum);
    }
    if U32(sum + d) == U32(sum + share) {
      U32Congruent(sum + d, sum + share, -sum);
    }
  }

  /**
   * In a world where only c's cache may be wrong, because its sum moved by `share`, propagating d makes every
   * cache right exactly when d agrees with `share`.
   */
  lemma BumpExact<R>(m: World<R>, c: R, d: int, k: Cache, sum: int, share: int, w: World<R>)
    requires Shape(m) && Shape(w) && m.Keys == w.Keys && c in m && m[c].isContainer && Repaired(m, w, k, c, d)
    requires forall r {:trigger CacheOk(m, k, r)} :: r in m && r != c ==> CacheOk(m, k, r)
    requires Linked(m, c) && m[c].Cached(k) == U32(sum) && Sum(Shares(m, k, m[c].items)) == sum + share
    ensures CachesOk(w, k) <==> U32(d) == U32(share)
  {
    DeltaExact(m[c].Cached(k), sum, share, d);
    forall r | r in w && r != c ensures CacheOk(w, k, r) {
      assert CacheOk(m, k, r);
    }
    OnlyAt(w, k, c);
  }

  /** The difference a container passes up when it takes in, or gives up, an item with this share. */
  function Gain(k: Cache, share: int): int {
    match k
    case Weight => I32(share)
    case Pokemon => U8(share)
  }

  function Loss(k: Cache, share: int): int {
    match k
    case Weight => -I32(share)
    case Pokemon => -I8(U8(share))
  }

  predicate GainExact(k: Cache, share: int) {
    k.Pokemon? ==> share < 256
  }

  predicate LossExact(k: Cache, share: int) {
    k.Pokemon? ==> share < 128 || share >= TWO32 - 128
  }

  /** Taking an item in is exact for weights always, for pokemon up to 255. */
  lemma GainCongruent(k: Cache, share: int)
    requires 0 <= share < TWO32
    ensures U32(Gain(k, share)) == U32(share) <==> GainExact(k, share)
  {
    I32Congruent(share);
  }

  /** Giving an item up is exact for weights always, for pokemon up to 127: the count is read as a signed byte. */
  lemma LossCongruent(k: Cache, share: int)
    requires 0 <= share < TWO32
    ensures U32(Loss(k, share)) == U32(-share) <==> LossExact(k, share)
  {
    match k
    case Weight =>
      I32Congruent(share);
      U32Congruent(I32(share), share, -share - I32(share));
    case Pokemon => SignedByteExact(share, share / 256, share % 256);
  }

  lemma SignedByteExact(share: int, k: int, r: int)
    requires 0 <= share < TWO32 && share == k * 256 + r && 0 <= r < 256 && r == U8(share)
    ensures U32(-I8(U8(share))) == U32(-share) <==> share < 128 || share >= TWO32 - 128
  {
    assert U32(-share) == if share == 0 then 0 else TWO32 - share;
    assert I8(r) == if r < 128 then r else r - 256;
    if r < 128 {
      assert U32(-r) == if r == 0 then 0 else TWO32 - r;
    } else {
      assert U32(256 - r) == 256 - r;
    }
  }

  /** `addThing`, `addItemBack` and `internalAddThing`. */
  ghost function AddItem<R>(m: World<R>, c: R, x: R, i: nat): (w: World<R>)
    requires CanAttach(m, c, x, i)
    ensures Shape(w) && w.Keys == m.Keys && x != c
    ensures w[c].Strip() == m[c].Strip().(items := m[c].items[..i] + [x] + m[c].items[i..])
    ensures w[x].Strip() == m[x].Strip().(parent := Some(c))
    ensures forall r {:trigger w[r]} :: r in m && r != c && r != x ==> w[r].Strip() == m[r].Strip()
  {
    AttachShape(m, c, x, i);
    Bump(Attach(m, c, x, i), c, Gain(Weight, m[x].Share(Weight)), Gain(Pokemon, m[x].Share(Pokemon)))
  }

  lemma AddCaches<R>(m: World<R>, k: Cache, c: R, x: R, i: nat)
    requires CanAttach(m, c, x, i) && CachesOk(m, k)
    ensures var w := AddItem(m, c, x, i);
      Shape(w) && (CachesOk(w, k) <==> GainExact(k, m[x].Share(k)))
  {
    AttachShape(m, c, x, i);
    var a := Attach(m, c, x, i);
    forall r | r in a && r != c ensures CacheOk(a, k, r) {
      AttachElsewhere(m, k, c, x, i, a, r);
      assert CacheOk(m, k, r);
    }
    assert CacheOk(m, k, c);
    AttachSum(m, k, c, x, i, a);
    var dw, dp := Gain(Weight, m[x].Share(Weight)), Gain(Pokemon, m[x].Share(Pokemon));
    BumpRepairs(a, c, dw, dp, k);
    assert a[c].Cached(k) == m[c].Cached(k);
    BumpExact(a, c, Diff(k, dw, dp), k, Sum(Shares(m, k, m[c].items)), m[x].Share(k), Bump(a, c, dw, dp));
    GainCongruent(k, m[x].Share(k));
  }

  /** `removeThing` of a whole item: the caches first, the link after. */
  ghost function RemoveItem<R>(m: World<R>, c: R, i: nat): (w: World<R>)
    requires Shape(m) && c in m && i < |m[c].items|
    ensures Shape(w) && w.Keys == m.Keys && m[c].items[i] in m && m[c].items[i] != c
    ensures w[c].Strip() == m[c].Strip().(items := m[c].items[..i] + m[c].items[i + 1..])
    ensures w[m[c].items[i]].Strip() == m[m[c].items[i]].Strip().(parent := None)
    ensures forall r {:trigger w[r]} :: r in m && r != c && r != m[c].items[i] ==> w[r].Strip() == m[r].Strip()
  {
    assert Linked(m, c);
    var x := m[c].items[i];
    DetachShape(Bump(m, c, Loss(Weight, m[x].Share(Weight)), Loss(Pokemon, m[x].Share(Pokemon))), c, i);
    Detach(Bump(m, c, Loss(Weight, m[x].Share(Weight)), Loss(Pokemon, m[x].Share(Pokemon))), c, i)
  }

  /** What a bumped world keeps of the one before, as far as the items of c are concerned. */
  ghost predicate Bumped<R>(m: World<R>, a: World<R>, k: Cache, c: R, d: int) {
    && Shape(m) && Shape(a) && c in m && m[c].isContainer && SameLinks(m, a) && Repaired(m, a, k, c, d)
    && a[c].Cached(k) == U32(m[c].Cached(k) + d)
    && (forall r {:trigger a[r]} :: r in m && r != c && m[r].depth >= m[c].depth ==> a[r] == m[r])
  }

  lemma RemoveSum<R>(m: World<R>, k: Cache, c: R, i: nat, d: int, a: World<R>, w: World<R>)
    requires Bumped(m, a, k, c, d) && i < |m[c].items| && w == Detach(a, c, i) && Shape(w)
    ensures Linked(m, c) && Linked(w, c)
    ensures Sum(Shares(w, k, w[c].items)) == Sum(Shares(m, k, m[c].items)) - m[m[c].items[i]].Share(k)
  {
    assert Linked(m, c);
    var items := m[c].items;
    forall j | 0 <= j < |items| ensures a[items[j]] == m[items[j]] {
      assert m[items[j]].depth > m[c].depth;
    }
    SharesMatch(m, a, k, items);
    DetachSum(a, k, c, i, w);
  }

  lemma RemoveElsewhere<R>(m: World<R>, k: Cache, c: R, i: nat, d: int, a: World<R>, w: World<R>, r: R)
    requires Bumped(m, a, k, c, d) && i < |m[c].items| && w == Detach(a, c, i) && Shape(w) && r in m && r != c
    ensures CacheOk(w, k, r) <==> CacheOk(m, k, r)
  {
    DetachElsewhere(a, k, c, i, w, r);
    assert CacheOk(a, k, r) <==> CacheOk(m, k, r);
  }

  lemma RemoveExact<R>(m: World<R>, k: Cache, c: R, i: nat, d: int, a: World<R>, w: World<R>, share: int)
    requires Bumped(m, a, k, c, d) && i < |m[c].items| && w == Detach(a, c, i) && Shape(w) && CachesOk(m, k)
    requires m[c].items[i] in m && share == m[m[c].items[i]].Share(k)
    ensures CachesOk(w, k) <==> U32(d) == U32(-share)
  {
    assert CacheOk(m, k, c);
    var before, after := RemovedCache(m, k, c, i, d, a, w, share);
    DeltaExact(m[c].Cached(k), before, -share, d);
    AllButOne(m, k, c, i, d, a, w);
  }

  lemma RemovedCache<R>(m: World<R>, k: Cache, c: R, i: nat, d: int, a: World<R>, w: World<R>, share: int)
    returns (before: int, after: int)
    requires Bumped(m, a, k, c, d) && i < |m[c].items| && w == Detach(a, c, i) && Shape(w) && CacheOk(m, k, c)
    requires m[c].items[i] in m && share == m[m[c].items[i]].Share(k)
    ensures m[c].Cached(k) == U32(before) && after == before - share
    ensures CacheOk(w, k, c) <==> U32(m[c].Cached(k) + d) == U32(after)
  {
    assert Linked(m, c);
    RemoveSum(m, k, c, i, d, a, w);
    before := Sum(Shares(m, k, m[c].items));
    after := Sum(Shares(w, k, w[c].items));
    assert w[c].isContainer && w[c].Cached(k) == a[c].Cached(k);
  }

  lemma AllButOne<R>(m: World<R>, k: Cache, c: R, i: nat, d: int, a: World<R>, w: World<R>)
    requires Bumped(m, a, k, c, d) && i < |m[c].items| && w == Detach(a, c, i) && Shape(w) && CachesOk(m, k)
    ensures CachesOk(w, k) <==> CacheOk(w, k, c)
  {
    forall r | r in w && r != c ensures CacheOk(w, k, r) {
      RemoveElsewhere(m, k, c, i, d, a, w, r);
      assert CacheOk(m, k, r);
    }
    OnlyAt(w, k, c);
  }

  lemma RemoveCaches<R>(m: World<R>, k: Cache, c: R, i: nat)
    requires Shape(m) && CachesOk(m, k) && c in m && i < |m[c].items|
    ensures m[c].items[i] in m
    ensures CachesOk(RemoveItem(m, c, i), k) <==> LossExact(k, m[m[c].items[i]].Share(k))
  {
    assert Linked(m, c);
    var x := m[c].items[i];
    var dw, dp := Loss(Weight, m[x].Share(Weight)), Loss(Pokemon, m[x].Share(Pokemon));
    var a := Bump(m, c, dw, dp);
    BumpBumps(m, c, dw, dp, k);
    DetachShape(a, c, i);
    var d := Diff(k, dw, dp);
    var share: int := m[x].Share(k);
    var w := Detach(a, c, i);
    assert w == RemoveItem(m, c, i);
    RemoveExact(m, k, c, i, d, a, w, share);
    assert d == Loss(k, share);
    LossCongruent(k, share);
  }

  lemma BumpBumps<R>(m: World<R>, c: R, dw: int, dp: int, k: Cache)
    requires Shape(m) && c in m && m[c].isContainer
    ensures Bumped(m, Bump(m, c, dw, dp), k, c, Diff(k, dw, dp))
  {
    BumpRepairs(m, c, dw, dp, k);
  }

  lemma RestackShape<R>(m: World<R>, x: R, kind: Kind, count: nat)
    requires Shape(m) && x in m && (m[x].isContainer ==> !kind.stackable)
    ensures Shape(Restack(m, x, kind, count))
  {
    var w := Restack(m, x, kind, count);
    forall r | r in w ensures Linked(w, r) {
      assert Linked(m, r);
    }
  }

  ghost predicate CanUpdate<R>(m: World<R>, c: R, x: R, kind: Kind) {
    Shape(m) && x in m && m[x].parent == Some(c) && (m[x].isContainer ==> !kind.stackable)
  }

  /** `updateThing`, and `removeThing` of part of a stack. */
  ghost function UpdateItem<R>(m: World<R>, c: R, x: R, kind: Kind, count: nat, dw: int, dp: int): (w: World<R>)
    requires CanUpdate(m, c, x, kind)
    ensures Shape(w) && w.Keys == m.Keys
    ensures w[x].Strip() == m[x].Strip().(kind := kind, count := count)
    ensures forall r {:trigger w[r]} :: r in m && r != x ==> w[r].Strip() == m[r].Strip()
  {
    RestackShape(m, x, kind, count);
    ParentOf(m, x);
    Bump(Restack(m, x, kind, count), c, dw, dp)
  }

  lemma UpdateAt<R>(m: World<R>, k: Cache, c: R, x: R, kind: Kind, count: nat, a: World<R>)
    requires CanUpdate(m, c, x, kind) && a == Restack(m, x, kind, count) && Shape(a)
    ensures c in m && m[c].isContainer && Linked(m, c) && Linked(a, c) && c != x
    ensures Sum(Shares(a, k, m[c].items)) == Sum(Shares(m, k, m[c].items)) - m[x].Share(k) + a[x].Share(k)
  {
    ParentOf(m, x);
    assert Linked(m, c) && Linked(a, c);
    var i :| 0 <= i < |m[c].items| && m[c].items[i] == x;
    var s, t := Shares(m, k, m[c].items), Shares(a, k, m[c].items);
    forall j | 0 <= j < |t| ensures t[j] == s[i := a[x].Share(k) as int][j] {
      assert j != i ==> m[c].items[j] != x;
    }
    assert t == s[i := a[x].Share(k)];
    SumUpdate(s, i, a[x].Share(k));
  }

  lemma UpdateElsewhere<R>(m: World<R>, k: Cache, c: R, x: R, kind: Kind, count: nat, a: World<R>, r: R)
    requires CanUpdate(m, c, x, kind) && r in m && r != c
    requires a == Restack(m, x, kind, count) && Shape(a)
    ensures CacheOk(a, k, r) <==> CacheOk(m, k, r)
  {
    assert Linked(m, r) && Linked(a, r);
    assert x !in m[r].items;
    SharesMatch(m, a, k, m[r].items);
  }

  lemma UpdateCaches<R>(m: World<R>, k: Cache, c: R, x: R, kind: Kind, count: nat, dw: int, dp: int, w: World<R>,
                        d: int, change: int)
    requires CanUpdate(m, c, x, kind) && CachesOk(m, k) && w == UpdateItem(m, c, x, kind, count, dw, dp)
    requires d == Diff(k, dw, dp) && change == Restack(m, x, kind, count)[x].Share(k) as int - m[x].Share(k) as int
    ensures CachesOk(w, k) <==> U32(d) == U32(change)
  {
    RestackShape(m, x, kind, count);
    var a := Restack(m, x, kind, count);
    UpdateAt(m, k, c, x, kind, count, a);
    forall r | r in a && r != c ensures CacheOk(a, k, r) {
      UpdateElsewhere(m, k, c, x, kind, count, a, r);
      assert CacheOk(m, k, r);
    }
    assert CacheOk(m, k, c);
    BumpRepairs(a, c, dw, dp, k);
    assert a[c].Cached(k) == m[c].Cached(k);
    BumpExact(a, c, Diff(k, dw, dp), k, Sum(Shares(m, k, m[c].items)),
              change, w);
  }

  /** A held item changed in place, with the differences `updateThing` and `removeThing` pass up. */
  ghost function RewriteWorld<R>(m: World<R>, c: R, x: R, kind: Kind, count: nat, signedByte: bool): (w: World<R>)
    requires CanUpdate(m, c, x, kind)
    ensures Shape(w) && w.Keys == m.Keys
    ensures w[x].Strip() == m[x].Strip().(kind := kind, count := count)
    ensures forall r {:trigger w[r]} :: r in m && r != x ==> w[r].Strip() == m[r].Strip()
  {
    var n := Restack(m, x, kind, count)[x];
    UpdateItem(m, c, x, kind, count, WeightChange(m[x], n), PokemonChange(m[x], n, signedByte))
  }

  function WeightChange<R>(before: Node<R>, after: Node<R>): int {
    after.Share(Weight) - I32(before.Share(Weight))
  }

  function PokemonChange<R>(before: Node<R>, after: Node<R>, signedByte: bool): int {
    var n := U8(before.Share(Pokemon));
    U8(after.Share(Pokemon)) - if signedByte then I8(n) else n
  }

  /** `replaceThing` of an item by itself: its parent link is set first and cleared last. */
  ghost function SelfReplaced<R>(m: World<R>, c: R, i: nat): World<R>
    requires Shape(m) && c in m && i < |m[c].items|
  {
    assert Linked(m, c);
    var x := m[c].items[i];
    var w := Bump(m, c, WeightChange(m[x], m[x]), PokemonChange(m[x], m[x], true));
    w[x := w[x].(parent := None)]
  }

  /** `replaceThing`, of an item by another or by itself. */
  ghost function ReplacedWorld<R>(m: World<R>, c: R, x: R, i: nat): World<R>
    requires Shape(m) && c in m && i < |m[c].items| && (x == m[c].items[i] || CanReplace(m, c, x, i))
  {
    if x == m[c].items[i] then SelfReplaced(m, c, i) else ReplaceWorld(m, c, x, i)
  }

  /**
   * Replacing keeps the links if and only if the item is another one: one replaced by itself is held without a
   * parent.
   */
  lemma ReplaceKeepsShape<R>(m: World<R>, c: R, x: R, i: nat)
    requires Shape(m) && c in m && i < |m[c].items| && (x == m[c].items[i] || CanReplace(m, c, x, i))
    ensures Shape(ReplacedWorld(m, c, x, i)) <==> x != m[c].items[i]
  {
    if x == m[c].items[i] {
      var w := SelfReplaced(m, c, i);
      assert Linked(m, c);
      assert w[c].items == m[c].items && w[x].parent.None?;
      assert !Linked(w, c);
    }
  }

  /** `removeThing` of the item at position i: part of a stack stays, anything else leaves. */
  ghost function RemoveThingWorld<R>(m: World<R>, c: R, i: nat, count: nat): (w: World<R>)
    requires Shape(m) && c in m && i < |m[c].items|
    ensures Shape(w) && w.Keys == m.Keys
  {
    assert Linked(m, c);
    var x := m[c].items[i];
    assert Linked(m, x);
    if m[x].kind.stackable && count != m[x].count then
      RemovePart(m, c, x, m[x].kind, Left(m[x].count, count))
    else RemoveItem(m, c, i)
  }

  function Left(held: nat, removed: nat): nat {
    if held > removed then held - removed else 0
  }

  ghost function RemovePart<R>(m: World<R>, c: R, x: R, kind: Kind, left: nat): (w: World<R>)
    requires CanUpdate(m, c, x, kind)
    ensures Shape(w) && w.Keys == m.Keys
  {
    RewriteWorld(m, c, x, kind, left, false)
  }

  /** Another item, lying nowhere, can take the place of the item at position i. */
  ghost predicate CanReplace<R>(m: World<R>, c: R, x: R, i: nat) {
    Shape(m) && c in m && i < |m[c].items| && x != m[c].items[i] && CanAttach(Detach(m, c, i), c, x, i)
  }

  /** `replaceThing`: x takes the place of the item at position i. */
  ghost function ReplaceWorld<R>(m: World<R>, c: R, x: R, i: nat): (w: World<R>)
    requires CanReplace(m, c, x, i)
    ensures Shape(w) && w.Keys == m.Keys
  {
    var d := Detach(m, c, i);
    AttachShape(d, c, x, i);
    assert Linked(m, c);
    var y := m[c].items[i];
    Bump(Attach(d, c, x, i), c, WeightChange(d[y], d[x]), PokemonChange(d[y], d[x], true))
  }

  /** The unsigned byte that a container's pokemon count is cut to survives being kept in a signed one. */
  predicate RewriteExact<R>(k: Cache, n: Node<R>, signedByte: bool) {
    k.Pokemon? && n.isContainer && signedByte ==> U8(n.Share(Pokemon)) < 128
  }

  lemma ChangeExact<R>(k: Cache, before: Node<R>, after: Node<R>, signedByte: bool, d: int, change: int)
    requires after == before.(kind := after.kind, count := after.count)
    requires d == Diff(k, WeightChange(before, after), PokemonChange(before, after, signedByte))
    requires change == after.Share(k) as int - before.Share(k) as int
    ensures U32(d) == U32(change) <==> RewriteExact(k, before, signedByte)
  {
    var b: int, a: int := before.Share(k), after.Share(k);
    if k.Weight? {
      I32Congruent(b);
      U32Congruent(I32(b), b, a - b - I32(b));
    } else if before.isContainer {
      assert a == b;
      SameByte(b);
    } else {
      SmallBytes(b, a);
    }
  }

  lemma SameByte(share: int)
    ensures U32(U8(share) - I8(U8(share))) == U32(share - share) <==> U8(share) < 128
  {
  }

  lemma SmallBytes(before: int, after: int)
    requires 0 <= before <= 1 && 0 <= after <= 1
    ensures U8(after) - I8(U8(before)) == U8(after) - U8(before) == after - before
  {
  }

  /**
   * Rewriting a held item keeps every weight exact, whatever the new kind and count, and the pokemon counts
   * exact for every item but a container with too large a count.
   */
  lemma RewriteCaches<R>(m: World<R>, k: Cache, c: R, x: R, kind: Kind, count: nat, signedByte: bool)
    requires CanUpdate(m, c, x, kind) && CachesOk(m, k)
    ensures CachesOk(RewriteWorld(m, c, x, kind, count, signedByte), k) <==> RewriteExact(k, m[x], signedByte)
  {
    var n := Restack(m, x, kind, count)[x];
    var dw, dp := WeightChange(m[x], n), PokemonChange(m[x], n, signedByte);
    var w := RewriteWorld(m, c, x, kind, count, signedByte);
    var change := n.Share(k) as int - m[x].Share(k) as int;
    RewriteIsUpdate(m, c, x, kind, count, signedByte, n);
    var d := Diff(k, dw, dp);
    UpdateCaches(m, k, c, x, kind, count, dw, dp, w, d, change);
    ChangeExact(k, m[x], n, signedByte, d, change);
  }

  lemma RewriteIsUpdate<R>(m: World<R>, c: R, x: R, kind: Kind, count: nat, signedByte: bool, n: Node<R>)
    requires CanUpdate(m, c, x, kind) && n == Restack(m, x, kind, count)[x]
    ensures RewriteWorld(m, c, x, kind, count, signedByte)
      == UpdateItem(m, c, x, kind, count, WeightChange(m[x], n), PokemonChange(m[x], n, signedByte))
  {
  }

  ghost predicate Replaced<R>(m: World<R>, c: R, x: R, i: nat, d: World<R>, a: World<R>) {
    && Shape(m) && c in m && i < |m[c].items| && x in m
    && d == Detach(m, c, i) && CanAttach(d, c, x, i) && a == Attach(d, c, x, i)
  }

  lemma ReplaceElsewhere<R>(m: World<R>, k: Cache, c: R, x: R, i: nat, d: World<R>, a: World<R>, r: R)
    requires Replaced(m, c, x, i, d, a) && Shape(a) && r in m && r != c
    ensures CacheOk(a, k, r) <==> CacheOk(m, k, r)
  {
    DetachElsewhere(m, k, c, i, d, r);
    AttachElsewhere(d, k, c, x, i, a, r);
  }

  lemma ReplaceSum<R>(m: World<R>, k: Cache, c: R, x: R, y: R, i: nat, d: World<R>, a: World<R>, sum: int)
    requires Replaced(m, c, x, i, d, a) && Shape(a) && m[c].items[i] == y
    requires Linked(m, c) && sum == Sum(Shares(m, k, m[c].items))
    ensures Linked(a, c) && Sum(Shares(a, k, a[c].items)) == sum - m[y].Share(k) + m[x].Share(k)
    ensures a[c].Cached(k) == m[c].Cached(k)
    ensures d[x].Share(k) == m[x].Share(k) && d[y].Share(k) == m[y].Share(k)
  {
    DetachSum(m, k, c, i, d);
    var middle := Sum(Shares(d, k, d[c].items));
    assert middle == sum - m[y].Share(k);
    DetachNodes(m, c, x, y, i, d);
    assert d[x].Share(k) == m[x].Share(k);
    AttachSum(d, k, c, x, i, a);
  }

  lemma DetachNodes<R>(m: World<R>, c: R, x: R, y: R, i: nat, d: World<R>)
    requires Shape(m) && c in m && i < |m[c].items| && d == Detach(m, c, i) && m[c].items[i] == y && x in m
    ensures y in m && d.Keys == m.Keys
    ensures forall r: R, k: Cache {:trigger d[r].Share(k)} :: r in m ==> d[r].Share(k) == m[r].Share(k)
    ensures forall k: Cache {:trigger d[c].Cached(k)} :: d[c].Cached(k) == m[c].Cached(k)
  {
    assert Linked(m, c);
  }

  /** What the signed byte cuts off the old pokemon count is what the unsigned one cuts off the new. */
  predicate SwapExact(k: Cache, before: int, after: int) {
    k.Pokemon? ==> U32(before - I8(U8(before))) == U32(after - U8(after))
  }

  /** Replacing keeps weights exact, and pokemon counts exactly when both bytes cut off the same. */
  lemma ReplaceCaches<R>(m: World<R>, k: Cache, c: R, x: R, y: R, i: nat, w: World<R>)
    requires CanReplace(m, c, x, i) && CachesOk(m, k) && m[c].items[i] == y && w == ReplaceWorld(m, c, x, i)
    requires Linked(m, c) && x in m
    ensures CachesOk(w, k) <==> SwapExact(k, m[y].Share(k), m[x].Share(k))
  {
    var d := Detach(m, c, i);
    var a := Attach(d, c, x, i);
    var sum, change := Sum(Shares(m, k, m[c].items)), m[x].Share(k) as int - m[y].Share(k) as int;
    AttachShape(d, c, x, i);
    forall r | r in a && r != c ensures CacheOk(a, k, r) {
      ReplaceElsewhere(m, k, c, x, i, d, a, r);
      assert CacheOk(m, k, r);
    }
    assert CacheOk(m, k, c);
    ReplaceSum(m, k, c, x, y, i, d, a, sum);
    var dw, dp := WeightChange(d[y], d[x]), PokemonChange(d[y], d[x], true);
    var diff := Diff(k, dw, dp);
    assert w == Bump(a, c, dw, dp);
    BumpRepairs(a, c, dw, dp, k);
    ExchangeExact(k, d[y], d[x], change, diff);
    BumpExact(a, c, diff, k, sum, change, w);
  }

  lemma ExchangeExact<R>(k: Cache, before: Node<R>, after: Node<R>, change: int, d: int)
    requires d == Diff(k, WeightChange(before, after), PokemonChange(before, after, true))
    requires change == after.Share(k) as int - before.Share(k) as int
    ensures U32(d) == U32(change) <==> SwapExact(k, before.Share(k), after.Share(k))
  {
    var b: int, a: int := before.Share(k), after.Share(k);
    match k
    case Weight =>
      assert d == Loss(Weight, b) + a;
      LossCongruent(k, b);
      U32Congruent(Loss(Weight, b), -b, a);
    case Pokemon =>
      SameCut(b, a, I8(U8(b)), U8(a), d, change);
  }

  lemma SameCut(b: int, a: int, b8: int, a8: int, d: int, change: int)
    requires d == a8 - b8 && change == a - b
    ensures U32(d) == U32(change) <==> U32(b - b8) == U32(a - a8)
  {
    if U32(d) == U32(change) {
      U32Congruent(change, d, b - a8);
    }
    if U32(b - b8) == U32(a - a8) {
      U32Congruent(b - b8, a - a8, a8 - b);
    }
  }

  // ---------- what the caches mean ----------

  /** The unbounded total over an item and everything inside it. */
  ghost function Total<R>(m: World<R>, k: Cache, r: R, top: nat): int
    requires Shape(m) && r in m && (forall x :: x in m ==> m[x].depth <= top)
    decreases top - m[r].depth, 1, 0
  {
    assert Linked(m, r);
    m[r].Own(k) + TotalOf(m, k, m[r].items, m[r].depth, top)
  }

  ghost function TotalOf<R>(m: World<R>, k: Cache, s: seq<R>, depth: nat, top: nat): int
    requires Shape(m) && depth <= top && (forall x :: x in m ==> m[x].depth <= top)
    requires forall i :: 0 <= i < |s| ==> s[i] in m && m[s[i]].depth > depth
    decreases top - depth, 0, |s|
  {
    if s == [] then 0 else Total(m, k, s[0], top) + TotalOf(m, k, s[1..], depth, top)
  }

  /** A container's cached weight (pokemon count) is, modulo 2^32, the sum over everything inside it. */
  lemma {:induction false} CacheIsTotal<R>(m: World<R>, k: Cache, r: R, top: nat)
    requires Shape(m) && CachesOk(m, k) && r in m && (forall x :: x in m ==> m[x].depth <= top)
    ensures Linked(m, r)
    ensures m[r].isContainer ==> m[r].Cached(k) == U32(TotalOf(m, k, m[r].items, m[r].depth, top))
    ensures m[r].Share(k) == U32(Total(m, k, r, top))
    decreases top - m[r].depth, 1, 0
  {
    assert Linked(m, r) && CacheOk(m, k, r);
    SharesAreTotals(m, k, m[r].items, m[r].depth, top);
    var inner := TotalOf(m, k, m[r].items, m[r].depth, top);
    U32Add(inner, m[r].Own(k));
  }

  lemma {:induction false} SharesAreTotals<R>(m: World<R>, k: Cache, s: seq<R>, depth: nat, top: nat)
    requires Shape(m) && CachesOk(m, k) && depth <= top && (forall x :: x in m ==> m[x].depth <= top)
    requires forall i :: 0 <= i < |s| ==> s[i] in m && m[s[i]].depth > depth
    ensures U32(Sum(Shares(m, k, s))) == U32(TotalOf(m, k, s, depth, top))
    decreases top - depth, 0, |s|
  {
    if s != [] {
      var head, tail := Total(m, k, s[0], top), TotalOf(m, k, s[1..], depth, top);
      CacheIsTotal(m, k, s[0], top);
      SharesAreTotals(m, k, s[1..], depth, top);
      U32Congruent(Sum(Shares(m, k, s[1..])), tail, U32(head));
      U32Add(head, tail);
    }
  }
}
