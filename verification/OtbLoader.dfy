/** The node files of the item and map data: a parser with an explicit stack of pointers. */
module OtbLoader {
  import opened Options
  import opened Streams
  import opened Words

  const ESCAPE: Byte := 0xFD
  const START: Byte := 0xFE
  const END: Byte := 0xFF

  const IDENTIFIER_SIZE := 4
  /** Identifier, start, type and end of the smallest node. */
  const MINIMAL_SIZE := 7

  /** A parsed node: its property bytes stay in the file, from propsBegin up to propsEnd. */
  datatype Node = Node(kind: Byte, propsBegin: nat, propsEnd: nat, children: seq<Node>)

  // ---------- pointers into the tree being built ----------

  /** A pointer to a node: the child indices that lead to it from the root. */
  type Pointer = seq<nat>

  ghost predicate Points(root: Node, p: Pointer)
    decreases |p|
  {
    p == [] || (p[0] < |root.children| && Points(root.children[p[0]], p[1..]))
  }

  /** Every step of the pointer takes the last child. */
  ghost predicate AlongLast(root: Node, p: Pointer)
    decreases |p|
  {
    p == [] || (p[0] + 1 == |root.children| && AlongLast(root.children[p[0]], p[1..]))
  }

  function Get(root: Node, p: Pointer): Node
    requires Points(root, p)
    decreases |p|
  {
    if p == [] then root else Get(root.children[p[0]], p[1..])
  }

  function Set(root: Node, p: Pointer, node: Node): (r: Node)
    requires Points(root, p)
    ensures Points(r, p) && Get(r, p) == node
    decreases |p|
  {
    if p == [] then node
    else root.(children := root.children[p[0] := Set(root.children[p[0]], p[1..], node)])
  }

  lemma {:induction false} SetTwice(root: Node, p: Pointer, node: Node, again: Node)
    requires Points(root, p)
    ensures Set(Set(root, p, node), p, again) == Set(root, p, again)
    decreases |p|
  {
    if p != [] {
      SetTwice(root.children[p[0]], p[1..], node, again);
      var k := p[0];
      var first := Set(root.children[k], p[1..], node);
      assert root.children[k := first][k := Set(first, p[1..], again)] ==
             root.children[k := Set(root.children[k], p[1..], again)];
    }
  }

  /** Writing through a pointer to a child rewrites that child of the node. */
  lemma {:induction false} SetChild(root: Node, p: Pointer, k: nat, child: Node)
    requires Points(root, p) && k < |Get(root, p).children|
    ensures Points(root, p + [k])
    ensures Get(root, p + [k]) == Get(root, p).children[k]
    ensures Set(root, p + [k], child) ==
            Set(root, p, Get(root, p).(children := Get(root, p).children[k := child]))
    decreases |p|
  {
    if p == [] {
      assert p + [k] == [k] && [k][1..] == [];
    } else {
      SetChild(root.children[p[0]], p[1..], k, child);
      assert (p + [k])[0] == p[0] && (p + [k])[1..] == p[1..] + [k];
    }
  }

  lemma {:induction false} SetKeepsLast(root: Node, p: Pointer, node: Node)
    requires Points(root, p) && AlongLast(root, p)
    ensures AlongLast(Set(root, p, node), p)
    decreases |p|
  {
    if p != [] {
      SetKeepsLast(root.children[p[0]], p[1..], node);
    }
  }

  lemma {:induction false} LastChild(root: Node, p: Pointer)
    requires Points(root, p) && AlongLast(root, p) && Get(root, p).children != []
    ensures Points(root, p + [|Get(root, p).children| - 1])
    ensures AlongLast(root, p + [|Get(root, p).children| - 1])
    decreases |p|
  {
    var k := |Get(root, p).children| - 1;
    if p == [] {
      assert (p + [k])[1..] == [];
    } else {
      LastChild(root.children[p[0]], p[1..]);
      assert (p + [k])[1..] == p[1..] + [k];
    }
  }

  lemma {:induction false} Shorter(root: Node, p: Pointer, n: nat)
    requires Points(root, p) && n <= |p|
    ensures Points(root, p[..n]) && (AlongLast(root, p) ==> AlongLast(root, p[..n]))
    decreases |p|
  {
    if n > 0 {
      Shorter(root.children[p[0]], p[1..], n - 1);
      assert p[..n][1..] == p[1..][..n - 1];
    }
  }

  // ---------- recursive descent ----------

  function Closed(node: Node, at: nat): Node {
    if node.children == [] then node.(propsEnd := at) else node
  }

  /** The open node once the bytes from i on have closed it, and where they go on. */
  function Close(node: Node, b: seq<Byte>, i: nat): (r: Option<(Node, nat)>)
    ensures r.Some? ==> i < r.value.1 <= |b|
    decreases |b| - i
  {
    if i >= |b| then None
    else if b[i] == END then Some((Closed(node, i), i + 1))
    else if b[i] == START then
      if i + 1 >= |b| then None
      else
        var child := Close(Node(b[i + 1], i + 2, i + 2, []), b, i + 2);
        if child.None? then None
        else Close(Adopt(Closed(node, i), child.value.0), b, child.value.1)
    else if b[i] == ESCAPE then if i + 1 >= |b| then None else Close(node, b, i + 2)
    else Close(node, b, i + 1)
  }

  function Adopt(node: Node, child: Node): Node {
    node.(children := node.children + [child])
  }

  /** Bytes behind the root: neither a node nor an end, and no escape without a byte to escape. */
  predicate Trailing(b: seq<Byte>, i: nat)
    decreases |b| - i
  {
    i >= |b|
    || (b[i] != START && b[i] != END
        && if b[i] == ESCAPE then i + 1 < |b| && Trailing(b, i + 2) else Trailing(b, i + 1))
  }

  /** The tree of a file, if it has one. */
  function Parse(b: seq<Byte>): Option<Node> {
    if |b| < IDENTIFIER_SIZE + 2 || b[IDENTIFIER_SIZE] != START then None
    else
      var root := Close(Node(b[IDENTIFIER_SIZE + 1], IDENTIFIER_SIZE + 2, IDENTIFIER_SIZE + 2, []), b,
        IDENTIFIER_SIZE + 2);
      if root.Some? && Trailing(b, root.value.1) then Some(root.value.0) else None
  }

  // ---------- the parser ----------

  /** The outcome of closing the node pointed to and then every node above it. */
  ghost function Finish(root: Node, p: Pointer, b: seq<Byte>, i: nat): Option<Node>
    requires Points(root, p)
    decreases |p|
  {
    var top := Close(Get(root, p), b, i);
    if top.None? then None
    else FinishAbove(Set(root, p, top.value.0), p, b, top.value.1)
  }

  ghost function FinishAbove(root: Node, p: Pointer, b: seq<Byte>, i: nat): Option<Node>
    requires Points(root, p)
    decreases |p|, 0
  {
    if p == [] then if Trailing(b, i) then Some(root) else None
    else (Shorter(root, p, |p| - 1); Finish(root, p[..|p| - 1], b, i))
  }

  /** The stack holds the way from the root to the open node, and that way runs through last children. */
  ghost predicate OnPath(root: Node, stack: seq<Pointer>) {
    forall d {:trigger stack[d]} :: 0 <= d < |stack| ==>
      |stack[d]| == d && stack[d] <= stack[|stack| - 1] && Points(root, stack[d]) && AlongLast(root, stack[d])
  }

  /** No stacked pointer leads below p: the children of p may move in memory. */
  ghost predicate MayGrow(stack: seq<Pointer>, p: Pointer) {
    forall q :: q in stack ==> !(p < q)
  }

  ghost predicate Outcome(root: Node, stack: seq<Pointer>, b: seq<Byte>, i: nat, result: Option<Node>) {
    OnPath(root, stack)
    && result == if stack == [] then if Trailing(b, i) then Some(root) else None
                 else Finish(root, stack[|stack| - 1], b, i)
  }

  lemma {:induction false} StartStep(root: Node, p: Pointer, b: seq<Byte>, i: nat, grown: Node)
    requires Points(root, p) && i + 1 < |b| && b[i] == START
    requires grown == Adopt(Closed(Get(root, p), i), Node(b[i + 1], i + 2, i + 2, []))
    ensures Points(Set(root, p, grown), p + [|grown.children| - 1])
    ensures Finish(root, p, b, i) == Finish(Set(root, p, grown), p + [|grown.children| - 1], b, i + 2)
  {
    var node, k := Closed(Get(root, p), i), |grown.children| - 1;
    var root' := Set(root, p, grown);
    var child := grown.children[k];
    SetChild(root', p, k, child);
    var done := Close(child, b, i + 2);
    if done.Some? {
      var (child', j) := done.value;
      SetChild(root', p, k, child');
      assert grown.children[k := child'] == node.children + [child'];
      SetTwice(root, p, grown, Adopt(node, child'));
      assert (p + [k])[..|p|] == p;
      var adopted := Set(root, p, Adopt(node, child'));
      assert Finish(root', p + [k], b, i + 2) == FinishAbove(adopted, p + [k], b, j) == Finish(adopted, p, b, j);
      var after := Close(Adopt(node, child'), b, j);
      assert Close(Get(root, p), b, i) == after;
      if after.Some? {
        SetTwice(root, p, Adopt(node, child'), after.value.0);
        assert Finish(adopted, p, b, j) == FinishAbove(Set(root, p, after.value.0), p, b, after.value.1);
      }
    }
  }

  lemma {:induction false} PushPath(root: Node, stack: seq<Pointer>, p: Pointer, grown: Node)
    requires OnPath(root, stack) && stack != [] && p == stack[|stack| - 1] && Points(root, p) && grown.children != []
    ensures OnPath(Set(root, p, grown), stack + [p + [|grown.children| - 1]])
    ensures MayGrow(stack, p)
  {
    assert stack[|stack| - 1] == p;
    var root' := Set(root, p, grown);
    SetKeepsLast(root, p, grown);
    LastChild(root', p);
    var q := p + [|grown.children| - 1];
    var stack' := stack + [q];
    assert q[..|p|] == p;
    forall d {:trigger stack'[d]} | 0 <= d < |stack'|
      ensures |stack'[d]| == d && stack'[d] <= q && Points(root', stack'[d]) && AlongLast(root', stack'[d])
    {
      if d < |stack| {
        assert stack'[d] == stack[d] && stack[d] == p[..d];
        Shorter(root', p, d);
      }
    }
  }

  lemma {:induction false} PopPath(root: Node, stack: seq<Pointer>, p: Pointer, node: Node)
    requires OnPath(root, stack) && stack != [] && p == stack[|stack| - 1] && Points(root, p)
    ensures OnPath(Set(root, p, node), stack[..|stack| - 1])
    ensures |stack| > 1 ==> stack[|stack| - 2] == p[..|p| - 1]
    ensures |stack| == 1 ==> p == []
  {
    assert stack[|stack| - 1] == p;
    var root' := Set(root, p, node);
    SetKeepsLast(root, p, node);
    var stack' := stack[..|stack| - 1];
    forall d {:trigger stack'[d]} | 0 <= d < |stack'|
      ensures |stack'[d]| == d && Points(root', stack'[d]) && AlongLast(root', stack'[d]) && stack'[d] == p[..d]
    {
      assert stack'[d] == stack[d] && stack[d] == p[..d];
      Shorter(root', p, d);
    }
    if |stack| > 1 {
      assert stack'[|stack| - 2] == p[..|stack| - 2];
    }
  }

  /** An end closes the open node. */
  lemma EndStep(root: Node, stack: seq<Pointer>, p: Pointer, b: seq<Byte>, i: nat, node: Node, result: Option<Node>)
    requires Outcome(root, stack, b, i, result) && stack != [] && p == stack[|stack| - 1] && Points(root, p)
    requires i < |b| && b[i] == END && node == Closed(Get(root, p), i)
    ensures Outcome(Set(root, p, node), stack[..|stack| - 1], b, i + 1, result)
  {
    PopPath(root, stack, p, node);
    assert result == Finish(root, p, b, i) == FinishAbove(Set(root, p, node), p, b, i + 1);
  }

  /** A plain byte, or an escape with the byte behind it, is passed over. */
  lemma SkipStep(root: Node, stack: seq<Pointer>, b: seq<Byte>, i: nat, n: nat, result: Option<Node>)
    requires Outcome(root, stack, b, i, result) && i < |b| && b[i] != START && b[i] != END
    requires n == (if b[i] == ESCAPE then i + 2 else i + 1) && n <= |b|
    ensures Outcome(root, stack, b, n, result)
  {
    if stack != [] {
      var p := stack[|stack| - 1];
      assert |stack[|stack| - 1]| == |p|;
      assert Close(Get(root, p), b, i) == Close(Get(root, p), b, n);
      assert Finish(root, p, b, i) == Finish(root, p, b, n);
    }
  }

  class Loader {
    const fileContents: seq<Byte>
    var root: Node
    var propBuffer: seq<Byte>

    constructor (contents: seq<Byte>)
      ensures fileContents == contents && root.children == []
    {
      fileContents := contents;
      root := Node(0, 0, 0, []);
      propBuffer := [];
    }

    /** Opening a file: its size and its identifier are checked before anything is read. */
    static method Open(contents: seq<Byte>, accepted: seq<Byte>) returns (loader: Loader?)
      requires |accepted| == IDENTIFIER_SIZE
      ensures loader != null <==>
        |contents| > MINIMAL_SIZE
          && (contents[..IDENTIFIER_SIZE] == accepted || contents[..IDENTIFIER_SIZE] == [0, 0, 0, 0])
      ensures loader != null ==> fresh(loader) && loader.fileContents == contents && loader.root.children == []
    {
      if |contents| <= MINIMAL_SIZE {
        return null;
      }
      var identifier := contents[..IDENTIFIER_SIZE];
      if identifier != accepted && identifier != [0, 0, 0, 0] {
        return null;
      }
      loader := new Loader(contents);
    }

    /** `parseTree`: it accepts exactly what recursive descent accepts, with the same tree. */
    method ParseTree() returns (ok: bool)
      requires |fileContents| > MINIMAL_SIZE
      modifies this`root
      ensures ok <==> Parse(fileContents).Some?
      ensures ok ==> root == Parse(fileContents).value
    {
      var b := fileContents;
      var it := IDENTIFIER_SIZE;
      if b[it] != START {
        return false;
      }
      it := it + 1;
      root := Node(b[it], it + 1, it + 1, []);
      it := it + 1;
      var parseStack: seq<Pointer> := [[]];
      ghost var result := Parse(b);
      while it < |b|
        invariant 0 <= it <= |b| && Outcome(root, parseStack, b, it, result)
      {
        if b[it] == START {
          if parseStack == [] {
            return false;
          }
          var p := parseStack[|parseStack| - 1];
          assert |parseStack[|parseStack| - 1]| == |p|;
          var currentNode := Closed(Get(root, p), it);
          if it + 1 == |b| {
            return false;
          }
          var child := Node(b[it + 1], it + 2, it + 2, []);
          var grown := Adopt(currentNode, child);
          StartStep(root, p, b, it, grown);
          PushPath(root, parseStack, p, grown);
          root := Set(root, p, grown);
          assert MayGrow(parseStack, p);
          parseStack := parseStack + [p + [|grown.children| - 1]];
          it := it + 1;
        } else if b[it] == END {
          if parseStack == [] {
            return false;
          }
          var p := parseStack[|parseStack| - 1];
          assert |parseStack[|parseStack| - 1]| == |p|;
          var currentNode := Closed(Get(root, p), it);
          EndStep(root, parseStack, p, b, it, currentNode, result);
          root := Set(root, p, currentNode);
          parseStack := parseStack[..|parseStack| - 1];
        } else if b[it] == ESCAPE {
          it := it + 1;
          if it == |b| {
            return false;
          }
          SkipStep(root, parseStack, b, it - 1, it + 1, result);
        } else {
          SkipStep(root, parseStack, b, it, it + 1, result);
        }
        it := it + 1;
      }
      return parseStack == [];
    }

    /** `getProps`: nothing for an empty stretch of bytes, else the bytes without the escapes. */
    method GetProps(node: Node) returns (found: bool, props: seq<Byte>)
      requires node.propsBegin <= node.propsEnd <= |fileContents|
      modifies this`propBuffer
      ensures found <==> node.propsBegin < node.propsEnd
      ensures found ==> props == Unescaped(fileContents[node.propsBegin..node.propsEnd], false)
    {
      props := [];
      if node.propsBegin == node.propsEnd {
        return false, [];
      }
      var lastEscaped := false;
      var raw := fileContents[node.propsBegin..node.propsEnd];
      propBuffer := [];
      var k := 0;
      while k < |raw|
        invariant 0 <= k <= |raw|
        invariant propBuffer + Unescaped(raw[k..], lastEscaped) == Unescaped(raw, false)
      {
        assert raw[k..][0] == raw[k] && raw[k..][1..] == raw[k + 1..];
        lastEscaped := raw[k] == ESCAPE && !lastEscaped;
        if !lastEscaped {
          propBuffer := propBuffer + [raw[k]];
        }
        k := k + 1;
      }
      return true, propBuffer;
    }
  }

  function Unescaped(raw: seq<Byte>, lastEscaped: bool): seq<Byte> {
    if raw == [] then []
    else if raw[0] == ESCAPE && !lastEscaped then Unescaped(raw[1..], true)
    else [raw[0]] + Unescaped(raw[1..], false)
  }

  // ---------- writing a tree, and reading it back ----------

  datatype Tree = Tree(kind: Byte, props: seq<Byte>, children: seq<Tree>)

  function Escaped(props: seq<Byte>): seq<Byte> {
    if props == [] then []
    else (if props[0] >= ESCAPE then [ESCAPE, props[0]] else [props[0]]) + Escaped(props[1..])
  }

  function Body(t: Tree): seq<Byte>
    decreases t, 0
  {
    Escaped(t.props) + EncodeAll(t.children) + [END]
  }

  function Encode(t: Tree): seq<Byte>
    decreases t, 1
  {
    [START, t.kind] + Body(t)
  }

  function EncodeAll(ts: seq<Tree>): seq<Byte>
    decreases ts
  {
    if ts == [] then [] else Encode(ts[0]) + EncodeAll(ts[1..])
  }

  /** What a reader of the parsed tree sees: its own bytes of every node without the escapes. */
  ghost function View(b: seq<Byte>, node: Node): Tree
    requires Inside(b, node)
    decreases node
  {
    Tree(node.kind, Unescaped(b[node.propsBegin..node.propsEnd], false),
         seq(|node.children|, k requires 0 <= k < |node.children| => View(b, node.children[k])))
  }

  ghost predicate Inside(b: seq<Byte>, node: Node) {
    node.propsBegin <= node.propsEnd <= |b| && forall k :: 0 <= k < |node.children| ==> Inside(b, node.children[k])
  }

  ghost predicate Reads(b: seq<Byte>, node: Node, t: Tree) {
    Inside(b, node) && View(b, node) == t
  }

  lemma {:induction false} UnescapeEscaped(props: seq<Byte>)
    ensures Unescaped(Escaped(props), false) == props
    ensures Escaped(props) == [] <==> props == []
  {
    if props != [] {
      UnescapeEscaped(props[1..]);
      var rest := Escaped(props[1..]);
      if props[0] >= ESCAPE {
        assert Escaped(props)[1..] == [props[0]] + rest;
        assert ([props[0]] + rest)[1..] == rest;
      } else {
        assert Escaped(props)[1..] == rest;
      }
    }
  }

  /** Escaped property bytes neither open nor close a node. */
  lemma {:induction false} PassProps(node: Node, b: seq<Byte>, i: nat, props: seq<Byte>)
    requires Found(b, i, Escaped(props))
    ensures Close(node, b, i) == Close(node, b, i + |Escaped(props)|)
    decreases |props|
  {
    if props != [] {
      var first := if props[0] >= ESCAPE then [ESCAPE, props[0]] else [props[0]];
      FoundSplit(b, i, Escaped(props), first, Escaped(props[1..]), i + |first|);
      assert b[i] == b[i..i + |first|][0];
      PassProps(node, b, i + |first|, props[1..]);
    }
  }

  lemma ViewOf(b: seq<Byte>, node: Node, t: Tree)
    requires node.propsBegin <= node.propsEnd <= |b| && node.kind == t.kind
    requires b[node.propsBegin..node.propsEnd] == Escaped(t.props)
    requires |node.children| == |t.children|
    requires forall k {:trigger Reads(b, node.children[k], t.children[k])} ::
      0 <= k < |t.children| ==> Reads(b, node.children[k], t.children[k])
    ensures Reads(b, node, t)
  {
    UnescapeEscaped(t.props);
    forall k | 0 <= k < |node.children| ensures Inside(b, node.children[k]) {
      assert Reads(b, node.children[k], t.children[k]);
    }
    var seen := View(b, node).children;
    forall k | 0 <= k < |seen| ensures seen[k] == t.children[k] {
      assert Reads(b, node.children[k], t.children[k]);
    }
  }

  lemma {:induction false} BodyParts(b: seq<Byte>, i: nat, t: Tree, j: nat, k: nat)
    requires Found(b, i, Body(t)) && j == i + |Escaped(t.props)| && k == j + |EncodeAll(t.children)|
    ensures Found(b, i, Escaped(t.props)) && Found(b, j, EncodeAll(t.children))
    ensures k < |b| && b[k] == END && k + 1 == i + |Body(t)|
  {
    FoundSplit(b, i, Body(t), Escaped(t.props) + EncodeAll(t.children), [END], k);
    FoundSplit(b, i, Escaped(t.props) + EncodeAll(t.children), Escaped(t.props), EncodeAll(t.children), j);
    assert b[k] == b[k..k + 1][0];
  }

  lemma {:induction false} CloseBody(b: seq<Byte>, i: nat, t: Tree, end: nat) returns (node: Node)
    requires Found(b, i, Body(t)) && end == i + |Body(t)|
    ensures Close(Node(t.kind, i, i, []), b, i) == Some((node, end)) && Reads(b, node, t)
    decreases t
  {
    var open := Node(t.kind, i, i, []);
    var j := i + |Escaped(t.props)|;
    var k := j + |EncodeAll(t.children)|;
    BodyParts(b, i, t, j, k);
    PassProps(open, b, i, t.props);
    var kids := CloseAll(b, j, t.children, open, k);
    node := Node(t.kind, i, j, kids);
    EndClose(With(open, j, kids), b, k, node, end);
    ViewOf(b, node, t);
  }

  lemma EndClose(node: Node, b: seq<Byte>, i: nat, closed: Node, end: nat)
    requires i < |b| && b[i] == END && Closed(node, i) == closed && end == i + 1
    ensures Close(node, b, i) == Some((closed, end))
  {
  }

  /** The children so far, closed at i if there are any. */
  function With(node: Node, i: nat, kids: seq<Node>): Node {
    if kids == [] then node else Closed(node, i).(children := node.children + kids)
  }

  lemma StartClose(node: Node, b: seq<Byte>, i: nat, child: Node, j: nat)
    requires i + 1 < |b| && b[i] == START && Close(Node(b[i + 1], i + 2, i + 2, []), b, i + 2) == Some((child, j))
    ensures Close(node, b, i) == Close(Adopt(Closed(node, i), child), b, j)
  {
  }

  lemma WithFirst(node: Node, i: nat, child: Node, j: nat, rest: seq<Node>)
    ensures With(Adopt(Closed(node, i), child), j, rest) == With(node, i, [child] + rest)
  {
    if rest == [] {
      assert [child] + rest == [child];
    } else {
      assert node.children + ([child] + rest) == (node.children + [child]) + rest;
    }
  }

  lemma {:induction false} CloseAll(b: seq<Byte>, i: nat, ts: seq<Tree>, node: Node, end: nat)
    returns (kids: seq<Node>)
    requires Found(b, i, EncodeAll(ts)) && end == i + |EncodeAll(ts)|
    ensures |kids| == |ts| && forall k {:trigger Reads(b, kids[k], ts[k])} :: 0 <= k < |ts| ==> Reads(b, kids[k], ts[k])
    ensures Close(node, b, i) == Close(With(node, i, kids), b, end)
    decreases ts
  {
    if ts == [] {
      kids := [];
    } else {
      FoundSplit(b, i, EncodeAll(ts), Encode(ts[0]), EncodeAll(ts[1..]), i + |Encode(ts[0])|);
      FoundOne(b, i, Encode(ts[0]), START, [ts[0].kind] + Body(ts[0]), i + 1);
      FoundOne(b, i + 1, [ts[0].kind] + Body(ts[0]), ts[0].kind, Body(ts[0]), i + 2);
      var j := i + |Encode(ts[0])|;
      var child := CloseBody(b, i + 2, ts[0], j);
      StartClose(node, b, i, child, j);
      var rest := CloseAll(b, j, ts[1..], Adopt(Closed(node, i), child), end);
      WithFirst(node, i, child, j, rest);
      kids := [child] + rest;
      forall k | 0 <= k < |ts| ensures Reads(b, kids[k], ts[k]) {
        if k > 0 {
          assert Reads(b, rest[k - 1], ts[1..][k - 1]);
        }
      }
    }
  }

  /** The file of a tree. */
  function File(identifier: seq<Byte>, t: Tree): seq<Byte>
    requires |identifier| == IDENTIFIER_SIZE
  {
    identifier + Encode(t)
  }

  /** Parsing what was written gives the tree that was written. */
  lemma {:induction false} ParseFile(identifier: seq<Byte>, t: Tree)
    requires |identifier| == IDENTIFIER_SIZE
    ensures Parse(File(identifier, t)).Some? && Reads(File(identifier, t), Parse(File(identifier, t)).value, t)
  {
    var b := File(identifier, t);
    assert b[IDENTIFIER_SIZE] == START && b[IDENTIFIER_SIZE + 1] == t.kind;
    assert b[6..6 + |Body(t)|] == Body(t);
    var node := CloseBody(b, 6, t, 6 + |Body(t)|);
  }

  /** A root with neither bytes nor children is a well-formed file of exactly the size that is refused. */
  lemma SmallestFile(identifier: seq<Byte>, t: Tree)
    requires |identifier| == IDENTIFIER_SIZE
    ensures |File(identifier, t)| > MINIMAL_SIZE <==> t.props != [] || t.children != []
  {
    UnescapeEscaped(t.props);
    if t.children != [] {
      assert |Encode(t.children[0])| > 0;
    }
    assert |Body(t)| == |Escaped(t.props)| + |EncodeAll(t.children)| + 1;
    assert |File(identifier, t)| == MINIMAL_SIZE + |Escaped(t.props)| + |EncodeAll(t.children)|;
  }

  /** Reading a written file: refused when its root is bare, and otherwise the tree comes back. */
  method ReadBack(identifier: seq<Byte>, t: Tree) returns (loader: Loader?)
    requires |identifier| == IDENTIFIER_SIZE
    ensures loader != null <==> t.props != [] || t.children != []
    ensures loader != null ==> Reads(File(identifier, t), loader.root, t)
  {
    loader := Loader.Open(File(identifier, t), identifier);
    assert File(identifier, t)[..IDENTIFIER_SIZE] == identifier;
    SmallestFile(identifier, t);
    if loader != null {
      ParseFile(identifier, t);
      var ok := loader.ParseTree();
    }
  }
}
