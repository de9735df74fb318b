/** Whole runs of container operations: what the caches of every state say. */
module ForestRuns {
  import opened Words
  import opened Forest

  /** The calls that change a plain container; adding covers the front, the back and any other place. */
  datatype Step<R> =
    | Add(c: R, x: R, i: nat)
    | Update(c: R, x: R, kind: Kind, count: nat)
    | Replace(c: R, x: R, i: nat)
    | Remove(c: R, i: nat, count: nat)

  ghost predicate Possible<R>(m: World<R>, s: Step<R>) {
    Shape(m) &&
    match s
    case Add(c, x, i) => CanAttach(m, c, x, i)
    case Update(c, x, kind, _) => CanUpdate(m, c, x, kind)
    case Replace(c, x, i) => CanReplace(m, c, x, i)
    case Remove(c, i, _) => c in m && i < |m[c].items|
  }

  ghost function After<R>(m: World<R>, s: Step<R>): (w: World<R>)
    requires Possible(m, s)
    ensures Shape(w) && w.Keys == m.Keys
  {
    match s
    case Add(c, x, i) => AddItem(m, c, x, i)
    case Update(c, x, kind, count) => RewriteWorld(m, c, x, kind, count, true)
    case Replace(c, x, i) => ReplaceWorld(m, c, x, i)
    case Remove(c, i, count) => RemoveThingWorld(m, c, i, count)
  }

  /** What the step passes up is right in spite of the bytes that pokemon counts are kept in. */
  ghost predicate Exact<R>(m: World<R>, k: Cache, s: Step<R>)
    requires Possible(m, s)
  {
    match s
    case Add(c, x, i) => GainExact(k, m[x].Share(k))
    case Update(c, x, _, _) => RewriteExact(k, m[x], true)
    case Replace(c, x, i) =>
      assert Linked(m, c);
      SwapExact(k, m[m[c].items[i]].Share(k), m[x].Share(k))
    case Remove(c, i, count) =>
      assert Linked(m, c);
      var x := m[c].items[i];
      (m[x].kind.stackable && count != m[x].count) || LossExact(k, m[x].Share(k))
  }

  /** A step keeps the caches right exactly when it is exact itself. */
  lemma StepCaches<R>(m: World<R>, k: Cache, s: Step<R>)
    requires Possible(m, s) && CachesOk(m, k)
    ensures CachesOk(After(m, s), k) <==> Exact(m, k, s)
  {
    match s {
      case Add(c, x, i) =>
        AddCaches(m, k, c, x, i);
      case Update(c, x, kind, count) =>
        RewriteCaches(m, k, c, x, kind, count, true);
      case Replace(c, x, i) =>
        assert Linked(m, c);
        ReplaceCaches(m, k, c, x, m[c].items[i], i, After(m, s));
      case Remove(c, i, count) =>
        RemoveThingCaches(m, k, c, i, count);
    }
  }

  lemma RemoveThingCaches<R>(m: World<R>, k: Cache, c: R, i: nat, count: nat)
    requires Possible(m, Remove(c, i, count)) && CachesOk(m, k)
    ensures CachesOk(RemoveThingWorld(m, c, i, count), k) <==> Exact(m, k, Remove(c, i, count))
  {
    assert Linked(m, c);
    var x := m[c].items[i];
    assert Linked(m, x);
    if m[x].kind.stackable && count != m[x].count {
      RewriteCaches(m, k, c, x, m[x].kind, Left(m[x].count, count), false);
    } else {
      RemoveCaches(m, k, c, i);
    }
  }

  /** The run can be taken step by step. */
  ghost predicate CanRun<R>(m: World<R>, steps: seq<Step<R>>)
    decreases |steps|
  {
    steps == [] || (Possible(m, steps[0]) && CanRun(After(m, steps[0]), steps[1..]))
  }

  ghost function End<R>(m: World<R>, steps: seq<Step<R>>): World<R>
    requires CanRun(m, steps)
    decreases |steps|
  {
    if steps == [] then m else End(After(m, steps[0]), steps[1..])
  }

  /** Every step of the run is exact for this cache. */
  ghost predicate AllExact<R>(m: World<R>, k: Cache, steps: seq<Step<R>>)
    requires CanRun(m, steps)
    decreases |steps|
  {
    steps == [] || (Exact(m, k, steps[0]) && AllExact(After(m, steps[0]), k, steps[1..]))
  }

  /**
   * After any exact run, what a container caches is the sum over everything inside it, at whatever depth, and no
   * item lies inside itself.
   */
  lemma {:induction false} RunCaches<R>(m: World<R>, k: Cache, steps: seq<Step<R>>, w: World<R>, r: R, top: nat)
    requires Shape(m) && CachesOk(m, k) && CanRun(m, steps) && AllExact(m, k, steps) && w == End(m, steps)
    requires r in w && w[r].isContainer && forall x :: x in w ==> w[x].depth <= top
    ensures Shape(w) && CachesOk(w, k) && Linked(w, r)
    ensures w[r].Cached(k) == U32(TotalOf(w, k, w[r].items, w[r].depth, top))
    decreases |steps|
  {
    if steps == [] {
      CacheIsTotal(m, k, r, top);
    } else {
      StepCaches(m, k, steps[0]);
      RunCaches(After(m, steps[0]), k, steps[1..], w, r, top);
    }
  }

  /** Weights wrap at 32 bits on the way up as the sums do, so that every step is exact for them. */
  lemma WeightsAreExact<R>(m: World<R>, s: Step<R>)
    requires Possible(m, s)
    ensures Exact(m, Weight, s)
  {
  }

  lemma {:induction false} WeightsAllExact<R>(m: World<R>, steps: seq<Step<R>>)
    requires CanRun(m, steps)
    ensures AllExact(m, Weight, steps)
    decreases |steps|
  {
    if steps != [] {
      WeightsAreExact(m, steps[0]);
      WeightsAllExact(After(m, steps[0]), steps[1..]);
    }
  }

  /** After any run whatever, each container's cached weight is the sum over everything inside it. */
  lemma RunWeights<R>(m: World<R>, steps: seq<Step<R>>, w: World<R>, r: R, top: nat)
    requires Shape(m) && CachesOk(m, Weight) && CanRun(m, steps) && w == End(m, steps)
    requires r in w && w[r].isContainer && forall x :: x in w ==> w[x].depth <= top
    ensures Shape(w) && Linked(w, r)
    ensures w[r].weight == U32(TotalOf(w, Weight, w[r].items, w[r].depth, top))
  {
    WeightsAllExact(m, steps);
    RunCaches(m, Weight, steps, w, r, top);
  }
}
