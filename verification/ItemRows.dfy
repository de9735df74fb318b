/** Saving a player's items as database rows, breadth first, and growing them back. */
module ItemRows {

  /** What a row keeps of an item; the item type says whether it is a container. */
  datatype Data = Data(itemType: nat, subType: nat, attributes: seq<int>, container: bool)

  datatype Tree = Tree(data: Data, items: seq<Tree>)

  datatype Row = Row(pid: int, sid: int, data: Data)

  const FIRST_SID := 101

  /** Only containers hold items, at every depth. */
  ghost predicate Sound(t: Tree) {
    (t.data.container || t.items == []) && forall i :: 0 <= i < |t.items| ==> Sound(t.items[i])
  }

  /** The saved items under one slot, depot or inbox number. */
  function Under(roots: seq<(int, Tree)>, p: int): seq<Tree> {
    if roots == [] then []
    else Under(roots[..|roots| - 1], p) + if roots[|roots| - 1].0 == p then [roots[|roots| - 1].1] else []
  }

  // ---------- saving ----------

  /** The nodes whose parent is p among the first n rows, in order. */
  function Kids(rows: seq<Row>, nodes: seq<Tree>, p: int, n: nat): seq<Tree>
    requires |rows| == |nodes| && n <= |rows|
  {
    if n == 0 then []
    else Kids(rows, nodes, p, n - 1) + if rows[n - 1].pid == p then [nodes[n - 1]] else []
  }

  lemma {:induction false} KidsAppend(rows: seq<Row>, nodes: seq<Tree>, p: int, n: nat, row: Row, node: Tree)
    requires |rows| == |nodes| && n <= |rows|
    ensures Kids(rows + [row], nodes + [node], p, n) == Kids(rows, nodes, p, n)
  {
    if n > 0 {
      KidsAppend(rows, nodes, p, n - 1, row, node);
    }
  }

  /** The containers among the nodes from k on, with their sids: the worklist of the save loop. */
  function Pending(nodes: seq<Tree>, k: nat): seq<(Tree, int)>
    decreases |nodes| - k
  {
    if k >= |nodes| then []
    else (if nodes[k].data.container then [(nodes[k], FIRST_SID + k)] else []) + Pending(nodes, k + 1)
  }

  lemma {:induction false} PendingAppend(nodes: seq<Tree>, k: nat, node: Tree)
    requires k <= |nodes|
    ensures Pending(nodes + [node], k) ==
      Pending(nodes, k) + if node.data.container then [(node, FIRST_SID + |nodes|)] else []
    decreases |nodes| - k
  {
    if k < |nodes| {
      PendingAppend(nodes, k + 1, node);
    } else {
      assert Pending(nodes + [node], k + 1) == [];
    }
  }

  /** Row k has the k-th sid after 100, and comes after the row of its parent. */
  ghost predicate RowOk(rows: seq<Row>, nodes: seq<Tree>, roots: nat, k: nat)
    requires |rows| == |nodes| && k < |rows|
  {
    && rows[k].sid == FIRST_SID + k && rows[k].data == nodes[k].data && Sound(nodes[k])
    && if k < roots then rows[k].pid < FIRST_SID
       else FIRST_SID <= rows[k].pid < rows[k].sid && nodes[rows[k].pid - FIRST_SID].data.container
  }

  ghost predicate Matched(rows: seq<Row>, nodes: seq<Tree>, roots: nat) {
    && |rows| == |nodes| && roots <= |rows|
    && (forall k {:trigger RowOk(rows, nodes, roots, k)} :: 0 <= k < |rows| ==> RowOk(rows, nodes, roots, k))
  }

  /** The first `head` nodes have all their children among the rows, the others none yet. */
  ghost predicate Expanded(rows: seq<Row>, nodes: seq<Tree>, head: nat) {
    && |rows| == |nodes| && head <= |rows|
    && (forall k :: 0 <= k < head ==> Kids(rows, nodes, FIRST_SID + k, |rows|) == nodes[k].items)
    && (forall k {:trigger Kids(rows, nodes, k, |rows|)} ::
          FIRST_SID + head <= k ==> Kids(rows, nodes, k, |rows|) == [])
  }

  /** The result of saving: every node was expanded, and the top rows are the given roots. */
  ghost predicate Saved(rows: seq<Row>, nodes: seq<Tree>, roots: seq<(int, Tree)>) {
    && Matched(rows, nodes, |roots|) && Expanded(rows, nodes, |rows|)
    && (forall k :: 0 <= k < |roots| ==> rows[k].pid == roots[k].0 && nodes[k] == roots[k].1)
  }

  /** Node k is being expanded, and its first j children are among the rows. */
  ghost predicate Expanding(rows: seq<Row>, nodes: seq<Tree>, k: nat, j: nat) {
    && |rows| == |nodes| && k < |rows| && j <= |nodes[k].items|
    && (forall i :: 0 <= i < k ==> Kids(rows, nodes, FIRST_SID + i, |rows|) == nodes[i].items)
    && Kids(rows, nodes, FIRST_SID + k, |rows|) == nodes[k].items[..j]
    && (forall i {:trigger Kids(rows, nodes, i, |rows|)} :: FIRST_SID + k < i ==> Kids(rows, nodes, i, |rows|) == [])
  }

  lemma {:induction false} MatchedOne(rows: seq<Row>, nodes: seq<Tree>, roots: nat, k: nat, j: nat, row: Row,
                                      node: Tree)
    requires Matched(rows, nodes, roots) && k < |nodes| && j < |nodes[k].items|
    requires node == nodes[k].items[j] && nodes[k].data.container
    requires row == Row(FIRST_SID + k, FIRST_SID + |rows|, node.data)
    ensures Matched(rows + [row], nodes + [node], roots)
  {
    assert RowOk(rows, nodes, roots, k) && Sound(node);
    var rows', nodes' := rows + [row], nodes + [node];
    forall i | 0 <= i < |rows'| ensures RowOk(rows', nodes', roots, i) {
      if i < |rows| {
        assert RowOk(rows, nodes, roots, i);
      }
    }
  }

  lemma {:induction false} ExpandOne(rows: seq<Row>, nodes: seq<Tree>, k: nat, j: nat, row: Row, node: Tree,
                                     rows': seq<Row>, nodes': seq<Tree>)
    requires Expanding(rows, nodes, k, j) && j < |nodes[k].items| && node == nodes[k].items[j]
    requires row.pid == FIRST_SID + k && rows' == rows + [row] && nodes' == nodes + [node]
    ensures Expanding(rows', nodes', k, j + 1)
  {
    forall p {:trigger Kids(rows', nodes', p, |rows'|)}
      ensures Kids(rows', nodes', p, |rows'|) ==
        Kids(rows, nodes, p, |rows|) + if p == FIRST_SID + k then [node] else []
    {
      KidsAppend(rows, nodes, p, |rows|, row, node);
    }
    assert nodes[k].items[..j + 1] == nodes[k].items[..j] + [node];
  }

  /** The next container of the worklist is the first one not yet expanded. */
  lemma {:induction false} NextPending(nodes: seq<Tree>, head: nat) returns (k: nat)
    requires head <= |nodes| && Pending(nodes, head) != []
    ensures head <= k < |nodes| && nodes[k].data.container
    ensures forall j :: head <= j < k ==> !nodes[j].data.container
    ensures Pending(nodes, head) == [(nodes[k], FIRST_SID + k)] + Pending(nodes, k + 1)
    decreases |nodes| - head
  {
    if nodes[head].data.container {
      k := head;
    } else {
      k := NextPending(nodes, head + 1);
    }
  }

  lemma {:induction false} NonePending(nodes: seq<Tree>, head: nat)
    requires head <= |nodes| && Pending(nodes, head) == []
    ensures forall j :: head <= j < |nodes| ==> !nodes[j].data.container
    decreases |nodes| - head
  {
    if head < |nodes| {
      NonePending(nodes, head + 1);
    }
  }

  lemma {:induction false} SkipPlain(rows: seq<Row>, nodes: seq<Tree>, roots: nat, head: nat, k: nat)
    requires Matched(rows, nodes, roots) && Expanded(rows, nodes, head) && head <= k <= |nodes|
    requires forall j :: head <= j < k ==> !nodes[j].data.container
    ensures Expanded(rows, nodes, k)
  {
    forall i | 0 <= i < k ensures Kids(rows, nodes, FIRST_SID + i, |rows|) == nodes[i].items {
      if i >= head {
        assert RowOk(rows, nodes, roots, i);
      }
    }
  }

  lemma {:induction false} RootAppend(rows: seq<Row>, nodes: seq<Tree>, row: Row, node: Tree)
    requires Matched(rows, nodes, |rows|) && Expanded(rows, nodes, 0) && Sound(node)
    requires row.pid < FIRST_SID && row.sid == FIRST_SID + |rows| && row.data == node.data
    ensures Matched(rows + [row], nodes + [node], |rows| + 1) && Expanded(rows + [row], nodes + [node], 0)
  {
    var rows', nodes' := rows + [row], nodes + [node];
    forall p | FIRST_SID <= p ensures Kids(rows', nodes', p, |rows'|) == [] {
      KidsAppend(rows, nodes, p, |rows|, row, node);
    }
    forall i | 0 <= i < |rows'| ensures RowOk(rows', nodes', |rows'|, i) {
      if i < |rows| {
        assert RowOk(rows, nodes, |rows|, i);
      }
    }
  }

  ghost predicate AtRoots(rows: seq<Row>, nodes: seq<Tree>, roots: seq<(int, Tree)>, n: nat) {
    && n <= |roots| && n <= |rows| && |rows| == |nodes|
    && (forall k :: 0 <= k < n ==> rows[k].pid == roots[k].0 && nodes[k] == roots[k].1)
  }

  method SaveRoots(itemList: seq<(int, Tree)>) returns (rows: seq<Row>, queue: seq<(Tree, int)>, ghost nodes: seq<Tree>)
    requires forall k :: 0 <= k < |itemList| ==> itemList[k].0 < FIRST_SID && Sound(itemList[k].1)
    ensures |rows| == |itemList| && Matched(rows, nodes, |itemList|) && Expanded(rows, nodes, 0)
    ensures AtRoots(rows, nodes, itemList, |itemList|) && queue == Pending(nodes, 0)
  {
    rows, nodes, queue := [], [], [];
    var runningId := 100;
    var r := 0;
    while r < |itemList|
      invariant 0 <= r <= |itemList| && runningId == 100 + r && |rows| == r
      invariant Matched(rows, nodes, r) && Expanded(rows, nodes, 0) && queue == Pending(nodes, 0)
      invariant AtRoots(rows, nodes, itemList, r)
    {
      var (pid, item) := itemList[r];
      runningId := runningId + 1;
      var row := Row(pid, runningId, item.data);
      RootAppend(rows, nodes, row, item);
      PendingAppend(nodes, 0, item);
      rows, nodes := rows + [row], nodes + [item];
      if item.data.container {
        queue := queue + [(item, runningId)];
      }
      r := r + 1;
    }
  }

  /** The state of the save while node k is being expanded. */
  ghost predicate Progress(rows: seq<Row>, nodes: seq<Tree>, queue: seq<(Tree, int)>, k: nat, j: nat,
                           roots: seq<(int, Tree)>) {
    && Matched(rows, nodes, |roots|) && Expanding(rows, nodes, k, j) && AtRoots(rows, nodes, roots, |roots|)
    && queue == Pending(nodes, k + 1) && nodes[k].data.container
  }

  function Enqueued(queue: seq<(Tree, int)>, item: Tree, id: int): seq<(Tree, int)> {
    if item.data.container then queue + [(item, id)] else queue
  }

  lemma {:induction false} ProgressOne(rows: seq<Row>, nodes: seq<Tree>, queue: seq<(Tree, int)>, k: nat, j: nat,
                                       roots: seq<(int, Tree)>, row: Row, item: Tree)
    requires Progress(rows, nodes, queue, k, j, roots) && j < |nodes[k].items| && item == nodes[k].items[j]
    requires row == Row(FIRST_SID + k, FIRST_SID + |rows|, item.data)
    ensures Progress(rows + [row], nodes + [item], Enqueued(queue, item, row.sid), k, j + 1, roots)
  {
    var rows', nodes' := rows + [row], nodes + [item];
    PendingAppend(nodes, k + 1, item);
    MatchedOne(rows, nodes, |roots|, k, j, row, item);
    ExpandOne(rows, nodes, k, j, row, item, rows', nodes');
    assert AtRoots(rows', nodes', roots, |roots|);
  }

  method SaveContents(container: Tree, parentId: int, runningId0: int, rows0: seq<Row>, queue0: seq<(Tree, int)>,
                      ghost nodes0: seq<Tree>, ghost k: nat, ghost roots: seq<(int, Tree)>)
    returns (rows: seq<Row>, queue: seq<(Tree, int)>, runningId: int, ghost nodes: seq<Tree>)
    requires Progress(rows0, nodes0, queue0, k, 0, roots)
    requires container == nodes0[k] && parentId == FIRST_SID + k && runningId0 == 100 + |rows0|
    ensures Progress(rows, nodes, queue, k, |container.items|, roots) && runningId == 100 + |rows|
    ensures container == nodes[k] && Weight(queue) == Weight(queue0) + BoxesOf(container.items)
  {
    rows, queue, nodes, runningId := rows0, queue0, nodes0, runningId0;
    var j := 0;
    while j < |container.items|
      invariant 0 <= j <= |container.items| && runningId == 100 + |rows|
      invariant Progress(rows, nodes, queue, k, j, roots) && container == nodes[k]
      invariant Weight(queue) == Weight(queue0) + BoxesOf(container.items[..j])
    {
      var item := container.items[j];
      runningId := runningId + 1;
      var row := Row(parentId, runningId, item.data);
      ProgressOne(rows, nodes, queue, k, j, roots, row, item);
      WeightTail(queue, item, runningId, container.items, j);
      if item.data.container {
        queue := queue + [(item, runningId)];
      }
      rows, nodes := rows + [row], nodes + [item];
      j := j + 1;
    }
    assert container.items[..j] == container.items;
  }

  lemma {:induction false} ProgressDone(rows: seq<Row>, nodes: seq<Tree>, queue: seq<(Tree, int)>, k: nat, j: nat,
                                        roots: seq<(int, Tree)>)
    requires Progress(rows, nodes, queue, k, j, roots) && j == |nodes[k].items|
    ensures Matched(rows, nodes, |roots|) && Expanded(rows, nodes, k + 1)
  {
    assert nodes[k].items[..j] == nodes[k].items;
  }

  /** Row k stands under its own number if it is a root, and else under the sid of an earlier container. */
  ghost predicate NumberedAt(rows: seq<Row>, roots: seq<(int, Tree)>, k: nat)
    requires k < |rows|
  {
    && rows[k].sid == FIRST_SID + k
    && if k < |roots| then rows[k].pid == roots[k].0 && rows[k].data == roots[k].1.data
       else FIRST_SID <= rows[k].pid < rows[k].sid && rows[rows[k].pid - FIRST_SID].data.container
  }

  ghost predicate Numbered(rows: seq<Row>, roots: seq<(int, Tree)>) {
    && |roots| <= |rows|
    && (forall k {:trigger NumberedAt(rows, roots, k)} :: 0 <= k < |rows| ==> NumberedAt(rows, roots, k))
  }

  lemma SavedNumbered(rows: seq<Row>, nodes: seq<Tree>, roots: seq<(int, Tree)>)
    requires Saved(rows, nodes, roots)
    ensures Numbered(rows, roots)
  {
    forall k | 0 <= k < |rows| ensures NumberedAt(rows, roots, k) {
      assert RowOk(rows, nodes, |roots|, k);
      if k >= |roots| {
        assert RowOk(rows, nodes, |roots|, rows[k].pid - FIRST_SID);
      }
    }
  }

  /** `saveItems`: the roots first, then breadth first the items of every container met. */
  method SaveItems(itemList: seq<(int, Tree)>) returns (rows: seq<Row>, ghost nodes: seq<Tree>)
    requires forall k :: 0 <= k < |itemList| ==> itemList[k].0 < FIRST_SID && Sound(itemList[k].1)
    ensures Saved(rows, nodes, itemList) && Numbered(rows, itemList)
  {
    var queue;
    rows, queue, nodes := SaveRoots(itemList);
    var runningId := 100 + |itemList|;
    ghost var head := 0;
    while queue != []
      invariant head <= |nodes| && Matched(rows, nodes, |itemList|) && Expanded(rows, nodes, head)
      invariant queue == Pending(nodes, head) && AtRoots(rows, nodes, itemList, |itemList|)
      invariant runningId == 100 + |rows|
      decreases Weight(queue)
    {
      ghost var k := NextPending(nodes, head);
      SkipPlain(rows, nodes, |itemList|, head, k);
      var (container, parentId) := queue[0];
      var rest := queue[1..];
      WeightHead(queue);
      assert Progress(rows, nodes, rest, k, 0, itemList);
      rows, queue, runningId, nodes := SaveContents(container, parentId, runningId, rows, rest, nodes, k, itemList);
      ProgressDone(rows, nodes, queue, k, |container.items|, itemList);
      head := k + 1;
    }
    NonePending(nodes, head);
    SkipPlain(rows, nodes, |itemList|, head, |nodes|);
    SavedNumbered(rows, nodes, itemList);
  }

  // ---------- termination of the save loop ----------

  /** The containers in a tree, itself included. */
  function Boxes(t: Tree): nat {
    BoxesOf(t.items) + if t.data.container then 1 else 0
  }

  function BoxesOf(s: seq<Tree>): nat {
    if s == [] then 0 else BoxesOf(s[..|s| - 1]) + if s[|s| - 1].data.container then Boxes(s[|s| - 1]) else 0
  }

  function Weight(queue: seq<(Tree, int)>): nat {
    if queue == [] then 0 else Weight(queue[..|queue| - 1]) + Boxes(queue[|queue| - 1].0)
  }

  lemma {:induction false} WeightHead(queue: seq<(Tree, int)>)
    requires queue != []
    ensures Weight(queue) == Boxes(queue[0].0) + Weight(queue[1..])
  {
    if |queue| > 1 {
      WeightHead(queue[..|queue| - 1]);
      assert queue[1..][..|queue| - 2] == queue[..|queue| - 1][1..];
    }
  }

  lemma {:induction false} WeightTail(queue: seq<(Tree, int)>, item: Tree, id: int, items: seq<Tree>, j: nat)
    requires j < |items| && items[j] == item
    ensures Weight(Enqueued(queue, item, id)) - Weight(queue) == BoxesOf(items[..j + 1]) - BoxesOf(items[..j])
  {
    assert items[..j + 1][..j] == items[..j];
    assert (queue + [(item, id)])[..|queue|] == queue;
  }

  // ---------- loading ----------

  /** The sids of the rows under parent p, from `start` on. */
  function SidsUnder(rows: seq<Row>, p: int, start: nat): seq<int>
    decreases |rows| - start
  {
    if start >= |rows| then []
    else (if rows[start].pid == p then [rows[start].sid] else []) + SidsUnder(rows, p, start + 1)
  }

  ghost predicate DistinctSids(rows: seq<Row>) {
    forall i, j :: 0 <= i < j < |rows| ==> rows[i].sid != rows[j].sid
  }

  ghost predicate RowLoaded(items: map<int, (Data, int)>, rows: seq<Row>, i: nat)
    requires i < |rows|
  {
    rows[i].sid in items && items[rows[i].sid] == (rows[i].data, rows[i].pid)
  }

  /** The item map holds the rows and nothing else. */
  ghost predicate Loaded(items: map<int, (Data, int)>, rows: seq<Row>) {
    && (forall i {:trigger RowLoaded(items, rows, i)} :: 0 <= i < |rows| ==> RowLoaded(items, rows, i))
    && items.Keys == set i | 0 <= i < |rows| :: rows[i].sid
  }

  ghost predicate TopHolds(top: map<int, seq<int>>, rows: seq<Row>, lo: int, hi: int, i: nat) {
    && (forall p :: p in top <==> lo <= p <= hi)
    && (forall p {:trigger SidsUnder(rows, p, i)} :: lo <= p <= hi ==> top[p] == SidsUnder(rows, p, i))
  }

  ghost predicate BoxesHold(lists: map<int, seq<int>>, rows: seq<Row>, lo: int, hi: int, i: nat) {
    forall s {:trigger SidsUnder(rows, s, i)} :: s in lists && !(lo <= s <= hi) ==> lists[s] == SidsUnder(rows, s, i)
  }

  /** An empty list for every number from lo to hi. */
  method EmptyTops(lo: int, hi: int) returns (top: map<int, seq<int>>)
    requires lo <= hi
    ensures forall p :: p in top <==> lo <= p <= hi
    ensures forall p :: p in top ==> top[p] == []
  {
    top := map[];
    for n := lo to hi + 1
      invariant forall p :: p in top <==> lo <= p < n
      invariant forall p :: p in top ==> top[p] == []
    {
      top := top[n := []];
    }
  }

  lemma TopStep(top: map<int, seq<int>>, rows: seq<Row>, lo: int, hi: int, i: nat, top': map<int, seq<int>>)
    requires i < |rows| && TopHolds(top, rows, lo, hi, i + 1)
    requires top' == if lo <= rows[i].pid <= hi then top[rows[i].pid := [rows[i].sid] + top[rows[i].pid]] else top
    ensures TopHolds(top', rows, lo, hi, i)
  {
    forall p | lo <= p <= hi ensures top'[p] == SidsUnder(rows, p, i) {
      assert top[p] == SidsUnder(rows, p, i + 1);
    }
  }

  lemma BoxesStep(lists: map<int, seq<int>>, rows: seq<Row>, lo: int, hi: int, i: nat, lists': map<int, seq<int>>)
    requires i < |rows| && BoxesHold(lists, rows, lo, hi, i + 1)
    requires lists' == if !(lo <= rows[i].pid <= hi) && rows[i].pid in lists
                       then lists[rows[i].pid := [rows[i].sid] + lists[rows[i].pid]] else lists
    ensures BoxesHold(lists', rows, lo, hi, i)
  {
    forall s | s in lists' && !(lo <= s <= hi) ensures lists'[s] == SidsUnder(rows, s, i) {
      assert lists[s] == SidsUnder(rows, s, i + 1);
    }
  }

  /** Loaded items, known by their sids. */
  /** The item map holds the rows from i on and nothing else. */
  ghost predicate LoadedFrom(items: map<int, (Data, int)>, rows: seq<Row>, i: nat) {
    && (forall j {:trigger RowLoaded(items, rows, j)} :: i <= j < |rows| ==> RowLoaded(items, rows, j))
    && items.Keys == set j | i <= j < |rows| :: rows[j].sid
  }

  lemma LoadedOne(items: map<int, (Data, int)>, rows: seq<Row>, i: nat, items': map<int, (Data, int)>)
    requires DistinctSids(rows) && i < |rows| && LoadedFrom(items, rows, i + 1)
    requires items' == items[rows[i].sid := (rows[i].data, rows[i].pid)]
    ensures LoadedFrom(items', rows, i)
  {
    forall j {:trigger RowLoaded(items', rows, j)} | i <= j < |rows| ensures RowLoaded(items', rows, j) {
      assert j > i ==> RowLoaded(items, rows, j) && rows[j].sid != rows[i].sid;
    }
    forall s ensures s in items' <==> s in (set j | i <= j < |rows| :: rows[j].sid) {
      assert s in items <==> s in (set j | i + 1 <= j < |rows| :: rows[j].sid);
    }
  }

  class Loader {
    /** Each item with the parent its row names. */
    var itemMap: map<int, (Data, int)>
    /** What each loaded container holds. */
    var itemlist: map<int, seq<int>>
    /** What lies in the slots, the depots or the inbox. */
    var top: map<int, seq<int>>

    constructor ()
      ensures itemMap == map[] && itemlist == map[] && top == map[]
    {
      itemMap, itemlist, top := map[], map[], map[];
    }

    /** `loadItems`, over the rows by descending sid. */
    method LoadItems(rows: seq<Row>)
      requires DistinctSids(rows)
      modifies this`itemMap, this`itemlist
      ensures Loaded(itemMap, rows)
      ensures forall s :: s in itemlist <==> s in itemMap && itemMap[s].0.container
      ensures forall s :: s in itemlist ==> itemlist[s] == []
    {
      itemMap, itemlist := map[], map[];
      var i := |rows|;
      while i > 0
        invariant 0 <= i <= |rows| && LoadedFrom(itemMap, rows, i)
        invariant forall s :: s in itemlist <==> s in itemMap && itemMap[s].0.container
        invariant forall s :: s in itemlist ==> itemlist[s] == []
      {
        i := i - 1;
        var row := rows[i];
        LoadedOne(itemMap, rows, i, itemMap[row.sid := (row.data, row.pid)]);
        itemMap := itemMap[row.sid := (row.data, row.pid)];
        if row.data.container {
          itemlist := itemlist[row.sid := []];
        }
      }
    }

    ghost predicate Holds(rows: seq<Row>, lo: int, hi: int, boxes: set<int>, i: nat)
      reads this
    {
      && TopHolds(top, rows, lo, hi, i) && itemlist.Keys == boxes && BoxesHold(itemlist, rows, lo, hi, i)
    }

    /** The rebuild loop: by descending sid, every item goes in front of what its parent holds. */
    method Attach(rows: seq<Row>, lo: int, hi: int)
      requires DistinctSids(rows) && lo <= hi && Loaded(itemMap, rows)
      requires forall s :: s in itemlist <==> s in itemMap && itemMap[s].0.container
      requires forall s :: s in itemlist ==> itemlist[s] == []
      modifies this`itemlist, this`top
      ensures TopHolds(top, rows, lo, hi, 0)
      ensures itemlist.Keys == old(itemlist.Keys) && BoxesHold(itemlist, rows, lo, hi, 0)
    {
      top := EmptyTops(lo, hi);
      var i := |rows|;
      while i > 0
        invariant 0 <= i <= |rows|
        invariant Holds(rows, lo, hi, old(itemlist.Keys), i)
      {
        i := i - 1;
        var sid := rows[i].sid;
        assert RowLoaded(itemMap, rows, i);
        var pid := itemMap[sid].1;
        ghost var top0, lists0 := top, itemlist;
        if lo <= pid <= hi {
          top := top[pid := [sid] + top[pid]];
        } else if pid in itemMap && itemMap[pid].0.container {
          itemlist := itemlist[pid := [sid] + itemlist[pid]];
        }
        TopStep(top0, rows, lo, hi, i, top);
        BoxesStep(lists0, rows, lo, hi, i, itemlist);
      }
    }
  }

  // ---------- the round trip ----------

  /** Every held item is known and has a larger sid than its holder. */
  ghost predicate Growing(items: map<int, (Data, int)>, lists: map<int, seq<int>>, last: int) {
    forall s, j {:trigger lists[s][j]} :: s in lists && 0 <= j < |lists[s]| ==>
      lists[s][j] in items && s < lists[s][j] <= last
  }

  ghost predicate Known(items: map<int, (Data, int)>, sids: seq<int>, above: int, last: int) {
    above <= last && forall j :: 0 <= j < |sids| ==> sids[j] in items && above < sids[j] <= last
  }

  /** The tree that has grown at an item. */
  ghost function TreeAt(items: map<int, (Data, int)>, lists: map<int, seq<int>>, s: int, last: int): Tree
    requires Growing(items, lists, last) && s in items && s <= last
    decreases last - s, 1, 0
  {
    Tree(items[s].0, if s in lists then TreesAt(items, lists, lists[s], s, last) else [])
  }

  ghost function TreesAt(items: map<int, (Data, int)>, lists: map<int, seq<int>>, sids: seq<int>, above: int, last: int)
    : seq<Tree>
    requires Growing(items, lists, last) && Known(items, sids, above, last)
    decreases last - above, 0, |sids|
  {
    if sids == [] then [] else [TreeAt(items, lists, sids[0], last)] + TreesAt(items, lists, sids[1..], above, last)
  }

  /** The nodes under p among the rows from `start` on. */
  function KidsFrom(rows: seq<Row>, nodes: seq<Tree>, p: int, start: nat): seq<Tree>
    requires |rows| == |nodes|
    decreases |rows| - start
  {
    if start >= |rows| then []
    else (if rows[start].pid == p then [nodes[start]] else []) + KidsFrom(rows, nodes, p, start + 1)
  }

  lemma {:induction false} KidsSplit(rows: seq<Row>, nodes: seq<Tree>, p: int, n: nat)
    requires |rows| == |nodes| && n <= |rows|
    ensures Kids(rows, nodes, p, |rows|) == Kids(rows, nodes, p, n) + KidsFrom(rows, nodes, p, n)
    decreases |rows| - n
  {
    if n < |rows| {
      KidsSplit(rows, nodes, p, n + 1);
    }
  }

  /** No row up to the k-th has the k-th sid for a parent. */
  lemma {:induction false} NoEarlyKids(rows: seq<Row>, nodes: seq<Tree>, roots: nat, k: nat, n: nat)
    requires Matched(rows, nodes, roots) && n <= k + 1 <= |rows|
    ensures Kids(rows, nodes, FIRST_SID + k, n) == []
  {
    if n > 0 {
      assert RowOk(rows, nodes, roots, n - 1);
      NoEarlyKids(rows, nodes, roots, k, n - 1);
    }
  }

  lemma KidsAfter(rows: seq<Row>, nodes: seq<Tree>, roots: seq<(int, Tree)>, k: nat)
    requires Saved(rows, nodes, roots) && k < |rows|
    ensures KidsFrom(rows, nodes, FIRST_SID + k, k + 1) == nodes[k].items
  {
    NoEarlyKids(rows, nodes, |roots|, k, k + 1);
    KidsSplit(rows, nodes, FIRST_SID + k, k + 1);
  }

  /** The top rows are the roots and come first. */
  lemma {:induction false} KidsAreRoots(rows: seq<Row>, nodes: seq<Tree>, roots: seq<(int, Tree)>, p: int, n: nat)
    requires Saved(rows, nodes, roots) && p < FIRST_SID && n <= |rows|
    ensures Kids(rows, nodes, p, n) == Under(roots[..if n < |roots| then n else |roots|], p)
  {
    if n > 0 {
      assert RowOk(rows, nodes, |roots|, n - 1);
      KidsAreRoots(rows, nodes, roots, p, n - 1);
      if n <= |roots| {
        assert roots[..n][..n - 1] == roots[..n - 1];
      }
    }
  }

  /** The containers hold exactly the sids of their rows. */
  ghost predicate Attached(items: map<int, (Data, int)>, lists: map<int, seq<int>>, rows: seq<Row>) {
    && Loaded(items, rows)
    && (forall s :: s in lists <==> s in items && items[s].0.container)
    && (forall s {:trigger SidsUnder(rows, s, 0)} :: s in lists ==> lists[s] == SidsUnder(rows, s, 0))
  }

  /** The sids under p from `start` on belong to such rows. */
  lemma {:induction false} SidsAreRows(rows: seq<Row>, nodes: seq<Tree>, roots: nat, p: int, start: nat, j: nat)
    returns (i: nat)
    requires Matched(rows, nodes, roots) && j < |SidsUnder(rows, p, start)|
    ensures start <= i < |rows| && rows[i].pid == p && SidsUnder(rows, p, start)[j] == rows[i].sid == FIRST_SID + i
    decreases |rows| - start
  {
    assert RowOk(rows, nodes, roots, start);
    if rows[start].pid != p {
      i := SidsAreRows(rows, nodes, roots, p, start + 1, j);
    } else if j == 0 {
      i := start;
    } else {
      i := SidsAreRows(rows, nodes, roots, p, start + 1, j - 1);
    }
  }

  lemma {:induction false} SidsAfter(rows: seq<Row>, nodes: seq<Tree>, roots: nat, k: nat, n: nat)
    requires Matched(rows, nodes, roots) && n <= k + 1 <= |rows|
    ensures SidsUnder(rows, FIRST_SID + k, n) == SidsUnder(rows, FIRST_SID + k, k + 1)
    decreases k + 1 - n
  {
    if n <= k {
      assert RowOk(rows, nodes, roots, n);
      SidsAfter(rows, nodes, roots, k, n + 1);
    }
  }

  /** A rebuilt container only holds known items with larger sids: the rebuilt forest has no cycle. */
  lemma {:induction false} GrowsUpwards(rows: seq<Row>, nodes: seq<Tree>, roots: nat,
                                        items: map<int, (Data, int)>, lists: map<int, seq<int>>)
    requires Matched(rows, nodes, roots) && Attached(items, lists, rows)
    ensures Growing(items, lists, 100 + |rows|)
  {
    forall s, j {:trigger lists[s][j]} | s in lists && 0 <= j < |lists[s]|
      ensures lists[s][j] in items && s < lists[s][j] <= 100 + |rows|
    {
      assert lists[s] == SidsUnder(rows, s, 0);
      var i := SidsAreRows(rows, nodes, roots, s, 0, j);
      assert RowLoaded(items, rows, i) && RowOk(rows, nodes, roots, i);
    }
  }

  lemma {:induction false} SidsKnown(rows: seq<Row>, nodes: seq<Tree>, roots: nat, items: map<int, (Data, int)>,
                                     p: int, start: nat, above: int)
    requires Matched(rows, nodes, roots) && Loaded(items, rows) && above < FIRST_SID + start && above <= 100 + |rows|
    ensures Known(items, SidsUnder(rows, p, start), above, 100 + |rows|)
  {
    var sids := SidsUnder(rows, p, start);
    forall j | 0 <= j < |sids| ensures sids[j] in items && above < sids[j] <= 100 + |rows| {
      var i := SidsAreRows(rows, nodes, roots, p, start, j);
      assert RowLoaded(items, rows, i);
    }
  }

  lemma TreesAtFirst(items: map<int, (Data, int)>, lists: map<int, seq<int>>, s: int, rest: seq<int>, above: int,
                     last: int)
    requires Growing(items, lists, last) && Known(items, [s] + rest, above, last)
    ensures s in items && s <= last && Known(items, rest, above, last)
    ensures TreesAt(items, lists, [s] + rest, above, last) ==
      [TreeAt(items, lists, s, last)] + TreesAt(items, lists, rest, above, last)
  {
    var sids := [s] + rest;
    assert sids[0] == s && sids[0] in items && sids[0] <= last && sids[1..] == rest;
    forall j | 0 <= j < |rest| ensures rest[j] in items && above < rest[j] <= last {
      assert rest[j] == sids[j + 1];
    }
  }

  lemma {:induction false} GrownKids(rows: seq<Row>, nodes: seq<Tree>, roots: seq<(int, Tree)>,
                                     items: map<int, (Data, int)>, lists: map<int, seq<int>>,
                                     p: int, start: nat, above: int)
    requires Saved(rows, nodes, roots) && Attached(items, lists, rows) && Growing(items, lists, 100 + |rows|)
    requires above < FIRST_SID + start && above <= 100 + |rows|
    ensures Known(items, SidsUnder(rows, p, start), above, 100 + |rows|)
    ensures TreesAt(items, lists, SidsUnder(rows, p, start), above, 100 + |rows|) == KidsFrom(rows, nodes, p, start)
    decreases |rows| - start, 1
  {
    SidsKnown(rows, nodes, |roots|, items, p, start, above);
    if start < |rows| {
      var rest := SidsUnder(rows, p, start + 1);
      GrownKids(rows, nodes, roots, items, lists, p, start + 1, above);
      if rows[start].pid == p {
        assert RowOk(rows, nodes, |roots|, start);
        GrownTree(rows, nodes, roots, items, lists, start);
        TreesAtFirst(items, lists, FIRST_SID + start, rest, above, 100 + |rows|);
      } else {
        assert SidsUnder(rows, p, start) == rest;
        assert KidsFrom(rows, nodes, p, start) == KidsFrom(rows, nodes, p, start + 1);
      }
    }
  }

  lemma {:induction false} GrownTree(rows: seq<Row>, nodes: seq<Tree>, roots: seq<(int, Tree)>,
                                     items: map<int, (Data, int)>, lists: map<int, seq<int>>, k: nat)
    requires Saved(rows, nodes, roots) && Attached(items, lists, rows) && Growing(items, lists, 100 + |rows|)
    requires k < |rows|
    ensures FIRST_SID + k in items && TreeAt(items, lists, FIRST_SID + k, 100 + |rows|) == nodes[k]
    decreases |rows| - k, 0
  {
    var s := FIRST_SID + k;
    assert RowOk(rows, nodes, |roots|, k) && RowLoaded(items, rows, k);
    if s in lists {
      assert lists[s] == SidsUnder(rows, s, 0);
      SidsAfter(rows, nodes, |roots|, k, 0);
      GrownKids(rows, nodes, roots, items, lists, s, k + 1, s);
      KidsAfter(rows, nodes, roots, k);
    }
  }

  /** What grows under every top number is what was saved under it, to any depth and in the same order. */
  lemma {:induction false} RoundTrip(rows: seq<Row>, nodes: seq<Tree>, roots: seq<(int, Tree)>,
                                     items: map<int, (Data, int)>, lists: map<int, seq<int>>, p: int)
    requires Saved(rows, nodes, roots) && Attached(items, lists, rows) && p < FIRST_SID
    ensures Growing(items, lists, 100 + |rows|) && Known(items, SidsUnder(rows, p, 0), 100, 100 + |rows|)
    ensures TreesAt(items, lists, SidsUnder(rows, p, 0), 100, 100 + |rows|) == Under(roots, p)
  {
    GrowsUpwards(rows, nodes, |roots|, items, lists);
    GrownKids(rows, nodes, roots, items, lists, p, 0, 100);
    KidsSplit(rows, nodes, p, 0);
    KidsAreRoots(rows, nodes, roots, p, |rows|);
    assert roots[..|roots|] == roots;
  }

  /** Under top number p, the loader holds the given trees. */
  ghost predicate Restored(items: map<int, (Data, int)>, lists: map<int, seq<int>>, sids: seq<int>, last: int,
                           trees: seq<Tree>) {
    && Growing(items, lists, last) && Known(items, sids, 100, last)
    && TreesAt(items, lists, sids, 100, last) == trees
  }

  lemma SavedDistinct(rows: seq<Row>, nodes: seq<Tree>, roots: nat)
    requires Matched(rows, nodes, roots)
    ensures DistinctSids(rows)
  {
    forall i, j | 0 <= i < j < |rows| ensures rows[i].sid != rows[j].sid {
      assert RowOk(rows, nodes, roots, i) && RowOk(rows, nodes, roots, j);
    }
  }

  /** Logging out and in again: the top numbers lo..hi hold what they held. */
  method SaveAndLoad(itemList: seq<(int, Tree)>, lo: int, hi: int) returns (loader: Loader, ghost last: int)
    requires lo <= hi < FIRST_SID
    requires forall k :: 0 <= k < |itemList| ==> itemList[k].0 < FIRST_SID && Sound(itemList[k].1)
    ensures fresh(loader) && forall p :: p in loader.top <==> lo <= p <= hi
    ensures forall p :: p in loader.top ==>
      Restored(loader.itemMap, loader.itemlist, loader.top[p], last, Under(itemList, p))
  {
    ghost var nodes;
    var rows;
    rows, nodes := SaveItems(itemList);
    SavedDistinct(rows, nodes, |itemList|);
    loader := new Loader();
    loader.LoadItems(rows);
    loader.Attach(rows, lo, hi);
    last := 100 + |rows|;
    AllAttached(rows, nodes, |itemList|, loader.itemMap, loader.itemlist, lo, hi);
    forall p | p in loader.top
      ensures Restored(loader.itemMap, loader.itemlist, loader.top[p], last, Under(itemList, p))
    {
      assert loader.top[p] == SidsUnder(rows, p, 0);
      RoundTrip(rows, nodes, itemList, loader.itemMap, loader.itemlist, p);
    }
  }

  lemma AllAttached(rows: seq<Row>, nodes: seq<Tree>, roots: nat, items: map<int, (Data, int)>,
                    lists: map<int, seq<int>>, lo: int, hi: int)
    requires Matched(rows, nodes, roots) && Loaded(items, rows) && hi < FIRST_SID
    requires forall s :: s in lists <==> s in items && items[s].0.container
    requires BoxesHold(lists, rows, lo, hi, 0)
    ensures Attached(items, lists, rows)
  {
    forall s | s in lists ensures lists[s] == SidsUnder(rows, s, 0) {
      var i :| 0 <= i < |rows| && rows[i].sid == s;
      assert RowOk(rows, nodes, roots, i);
    }
  }
}
