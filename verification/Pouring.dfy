/** Pouring units over the stacks of a container: each is filled before the next one gets anything. */
module Pouring {
  import opened Forest
  import opened Stacks

  /** What the stacks before position i still take. */
  ghost function GapBefore<R>(m: World<R>, c: R, kind: Kind, i: nat): int
    requires Shape(m) && c in m && i <= |m[c].items|
  {
    assert Linked(m, c);
    Tally(m, m[c].items[..i], Gap(c, kind))
  }

  /** What all stacks of c still take. */
  ghost function GapOf<R>(m: World<R>, c: R, kind: Kind): int
    requires Shape(m) && c in m
  {
    Held(m, c, Gap(c, kind))
  }

  /** The share of n units that goes into a gap when the gaps before it are filled first. */
  function Poured(n: int, before: int, gap: int): int {
    if n <= before then 0 else if n - before < gap then n - before else gap
  }

  /** The stack at position i took its share of n units. */
  ghost predicate PouredAt<R>(m: World<R>, w: World<R>, c: R, kind: Kind, n: int, i: nat)
    requires Shape(m) && c in m && i < |m[c].items| && m.Keys <= w.Keys
  {
    assert Linked(m, c);
    var x := m[c].items[i];
    w[x].count == m[x].count + Poured(n, GapBefore(m, c, kind, i), Reading(m[x], x, Gap(c, kind)))
  }

  ghost predicate AllPoured<R>(m: World<R>, w: World<R>, c: R, kind: Kind, n: int) {
    && Shape(m) && c in m && m.Keys <= w.Keys
    && forall i {:trigger PouredAt(m, w, c, kind, n, i)} ::
         0 <= i < |m[c].items| ==> PouredAt(m, w, c, kind, n, i)
  }

  lemma {:induction false} GapGrows<R>(m: World<R>, c: R, kind: Kind, i: nat, j: nat)
    requires Shape(m) && c in m && i <= j <= |m[c].items|
    ensures GapBefore(m, c, kind, i) <= GapBefore(m, c, kind, j)
    decreases j
  {
    if i < j {
      assert Linked(m, c);
      GapGrows(m, c, kind, i, j - 1);
      TallyPrefix(m, m[c].items, j - 1, Gap(c, kind));
    }
  }

  lemma GapNext<R>(m: World<R>, c: R, kind: Kind, i: nat)
    requires Shape(m) && c in m && i < |m[c].items|
    ensures m[c].items[i] in m && m[c].items[i] != c
    ensures GapBefore(m, c, kind, i + 1) ==
      GapBefore(m, c, kind, i) + Reading(m[m[c].items[i]], m[c].items[i], Gap(c, kind))
  {
    assert Linked(m, c);
    TallyPrefix(m, m[c].items, i, Gap(c, kind));
  }

  lemma GapAll<R>(m: World<R>, c: R, kind: Kind)
    requires Shape(m) && c in m
    ensures GapBefore(m, c, kind, |m[c].items|) == GapOf(m, c, kind)
  {
    assert Linked(m, c);
    assert m[c].items[..|m[c].items|] == m[c].items;
  }

  /** From m to u only the count of the item at position j of c changed. */
  ghost predicate OneChanged<R>(m: World<R>, u: World<R>, c: R, j: nat) {
    && Shape(m) && Shape(u) && c in m && j < |m[c].items| && m[c].items[j] in m && u.Keys == m.Keys
    && m[c].items[j] != c && u[m[c].items[j]].kind == m[m[c].items[j]].kind
    && forall r {:trigger u[r]} :: r in m && r != m[c].items[j] ==> u[r].Strip() == m[r].Strip()
  }

  /** Filling the gap at position j by n units takes n off the gaps behind it. */
  lemma GapFilled<R>(m: World<R>, u: World<R>, c: R, kind: Kind, j: nat, n: nat, i: nat)
    requires OneChanged(m, u, c, j) && i <= |m[c].items| && m[m[c].items[j]].kind == kind
    requires m[m[c].items[j]].count + n <= kind.maxCount && u[m[c].items[j]].count == m[m[c].items[j]].count + n
    ensures u[c].items == m[c].items
    ensures GapBefore(u, c, kind, i) == GapBefore(m, c, kind, i) - if i > j then n else 0
  {
    assert Linked(m, c) && Linked(u, c);
    var y, q := m[c].items[j], Gap(c, kind);
    assert u[c].Strip() == m[c].Strip();
    assert u[c].Strip().items == m[c].Strip().items;
    var s := m[c].items[..i];
    forall k | 0 <= k < |s| && k != j ensures u[s[k]].kind == m[s[k]].kind && u[s[k]].count == m[s[k]].count {
      assert s[k] == m[c].items[k];
      assert u[s[k]].Strip().kind == m[s[k]].Strip().kind && u[s[k]].Strip().count == m[s[k]].Strip().count;
    }
    if i > j {
      TallyRewrite(m, u, s, j, q);
    } else {
      TallyMatch(m, u, s, q);
    }
  }

  /** The stack at position j is the first that takes anything, and takes n units. */
  ghost predicate FirstFilled<R>(m: World<R>, u: World<R>, c: R, kind: Kind, j: nat, n: nat) {
    && OneChanged(m, u, c, j) && GapBefore(m, c, kind, j) == 0 && m[m[c].items[j]].kind == kind
    && m[m[c].items[j]].count < kind.maxCount && m[m[c].items[j]].count + n <= kind.maxCount
    && u[m[c].items[j]].count == m[m[c].items[j]].count + n
  }

  /** When the first stack takes all, the others take nothing. */
  lemma PouredOnce<R>(m: World<R>, u: World<R>, c: R, kind: Kind, j: nat, n: nat)
    requires FirstFilled(m, u, c, kind, j, n)
    ensures AllPoured(m, u, c, kind, n) && GapOf(m, c, kind) >= n
  {
    GapNext(m, c, kind, j);
    GapGrows(m, c, kind, j + 1, |m[c].items|);
    GapAll(m, c, kind);
    forall i | 0 <= i < |m[c].items| ensures PouredAt(m, u, c, kind, n, i) {
      PouredOnceAt(m, u, c, kind, j, n, i);
    }
  }

  lemma PouredOnceAt<R>(m: World<R>, u: World<R>, c: R, kind: Kind, j: nat, n: nat, i: nat)
    requires FirstFilled(m, u, c, kind, j, n) && i < |m[c].items|
    ensures PouredAt(m, u, c, kind, n, i)
  {
    assert Linked(m, c);
    GapNext(m, c, kind, j);
    if i < j {
      GapNext(m, c, kind, i);
      GapGrows(m, c, kind, 0, i);
      GapGrows(m, c, kind, i + 1, j);
    } else if i > j {
      GapGrows(m, c, kind, j + 1, i);
    }
    var x := m[c].items[i];
    if i != j {
      assert x != m[c].items[j];
      assert u[x].Strip().count == m[x].Strip().count;
    }
  }

  /** When the first stack is filled, the rest is poured over the stacks behind it. */
  lemma PouredTwiceAt<R>(m: World<R>, u: World<R>, w: World<R>, c: R, kind: Kind, j: nat, n: nat, rest: nat, i: nat)
    requires FirstFilled(m, u, c, kind, j, n) && m[m[c].items[j]].count + n == kind.maxCount && rest > 0
    requires AllPoured(u, w, c, kind, rest) && i < |m[c].items|
    ensures PouredAt(m, w, c, kind, n + rest, i)
  {
    assert Linked(m, c);
    GapFilled(m, u, c, kind, j, n, i);
    GapNext(m, c, kind, j);
    assert PouredAt(u, w, c, kind, rest, i);
    var x := m[c].items[i];
    if i != j {
      assert x != m[c].items[j];
      assert u[x].Strip().count == m[x].Strip().count && u[x].Strip().kind == m[x].Strip().kind;
    }
    if i < j {
      GapNext(m, c, kind, i);
      GapGrows(m, c, kind, 0, i);
      GapGrows(m, c, kind, i + 1, j);
    } else if i > j {
      GapGrows(m, c, kind, j + 1, i);
    }
  }

  lemma PouredTwice<R>(m: World<R>, u: World<R>, w: World<R>, c: R, kind: Kind, j: nat, n: nat, rest: nat, total: nat)
    requires FirstFilled(m, u, c, kind, j, n) && m[m[c].items[j]].count + n == kind.maxCount && rest > 0
    requires AllPoured(u, w, c, kind, rest) && total == n + rest
    ensures AllPoured(m, w, c, kind, total) && GapOf(u, c, kind) == GapOf(m, c, kind) - n
  {
    GapFilled(m, u, c, kind, j, n, |m[c].items|);
    GapAll(m, c, kind);
    GapAll(u, c, kind);
    forall i | 0 <= i < |m[c].items| ensures PouredAt(m, w, c, kind, total, i) {
      PouredTwiceAt(m, u, w, c, kind, j, n, rest, i);
    }
  }
}
