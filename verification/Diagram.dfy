/** Drawing the trees of the service map: which boxes and tiles there are, and
    where each goes (diagram.py, on servicemap.py's trees). */
module Diagram {
  import opened Prelude
  import opened Sorting

  const NODE_W := 184.0
  const NODE_H := 54.0
  const CHIP_W := 128.0
  const CHIP_H := 24.0
  const CHIP_GAP := 6.0
  const GROUP_PAD := 10.0
  const GROUP_HEAD := 28.0
  const GROUP_COLS := 3
  const MAX_CHIPS := 18
  const MORE_H := 18.0
  const GAP_X := 26.0
  const GAP_Y := 58.0
  const MARGIN := 24.0
  const ROOT_GAP := 52.0

  datatype Role = Gateway | Switch | AccessPoint | Hypervisor | Host | Nas | Ups | Camera | Client | Unknown

  datatype Trouble = Bad | Warn

  /** A device, the troubles of its own -- of its state and its watched ports --
      and the devices that hang from it. */
  datatype Node = Node(id: int, role: Role, troubles: seq<Trouble>, children: seq<Node>)

  datatype Chip = Chip(node: Node, x: real, y: real)

  /** A box for one device, or a group of tiles. */
  datatype Item = Item(node: Option<Node>, w: real, h: real, chips: seq<Chip>, more: nat,
                       problem: Option<Trouble>, children: seq<Item>)

  /** An item where it is drawn. */
  datatype Drawn = Drawn(item: Item, x: real, y: real) {
    function Cx(): real {
      x + item.w / 2.0
    }
  }

  /** A line from the foot of one box to the head of another. */
  datatype Edge = Edge(fromX: real, fromY: real, toX: real, toY: real, problem: Option<Trouble>)

  // -------------------------------------------------------------------------- trouble

  /** The gravest of some troubles, if there are any. */
  function Worst(kinds: seq<Option<Trouble>>): Option<Trouble> {
    if Some(Bad) in kinds then Some(Bad) else if Some(Warn) in kinds then Some(Warn) else None
  }

  function OwnTrouble(node: Node): Option<Trouble> {
    if Bad in node.troubles then Some(Bad) else if Warn in node.troubles then Some(Warn) else None
  }

  function TroubleBelow(node: Node): Option<Trouble> {
    Worst([OwnTrouble(node)] + TroubleBelowAll(node.children))
  }

  function TroubleBelowAll(nodes: seq<Node>): seq<Option<Trouble>> {
    if nodes == [] then [] else [TroubleBelow(nodes[0])] + TroubleBelowAll(nodes[1..])
  }

  /** A device and everything placed under it. */
  function Nodes(node: Node): seq<Node> {
    [node] + NodesAll(node.children)
  }

  function NodesAll(nodes: seq<Node>): seq<Node> {
    if nodes == [] then [] else Nodes(nodes[0]) + NodesAll(nodes[1..])
  }

  predicate HasTrouble(nodes: seq<Node>, t: Trouble) {
    exists i :: 0 <= i < |nodes| && OwnTrouble(nodes[i]) == Some(t)
  }

  lemma HasEither(a: seq<Node>, b: seq<Node>, t: Trouble)
    ensures HasTrouble(a + b, t) <==> HasTrouble(a, t) || HasTrouble(b, t)
  {
    if HasTrouble(a, t) {
      var i :| 0 <= i < |a| && OwnTrouble(a[i]) == Some(t);
      assert (a + b)[i] == a[i];
    }
    if HasTrouble(b, t) {
      var i :| 0 <= i < |b| && OwnTrouble(b[i]) == Some(t);
      assert (a + b)[|a| + i] == b[i];
    }
  }

  /** The worst of some devices' own troubles. */
  function WorstOf(nodes: seq<Node>): Option<Trouble> {
    if HasTrouble(nodes, Bad) then Some(Bad) else if HasTrouble(nodes, Warn) then Some(Warn) else None
  }

  /** A line is red exactly if some device it leads to is in trouble itself. */
  lemma {:induction false} LineShowsTheWorst(node: Node)
    ensures TroubleBelow(node) == WorstOf(Nodes(node))
    decreases node, 1
  {
    LinesShowTheWorst(node.children);
    HasEither([node], NodesAll(node.children), Bad);
    HasEither([node], NodesAll(node.children), Warn);
    OnlyOne(node, Bad);
    OnlyOne(node, Warn);
  }

  lemma OnlyOne(node: Node, t: Trouble)
    ensures HasTrouble([node], t) <==> OwnTrouble(node) == Some(t)
  {
    if OwnTrouble(node) == Some(t) {
      assert [node][0] == node;
    }
  }

  lemma {:induction false} LinesShowTheWorst(nodes: seq<Node>)
    ensures Worst(TroubleBelowAll(nodes)) == WorstOf(NodesAll(nodes))
    decreases nodes, 0
  {
    if nodes != [] {
      LineShowsTheWorst(nodes[0]);
      LinesShowTheWorst(nodes[1..]);
      HasEither(Nodes(nodes[0]), NodesAll(nodes[1..]), Bad);
      HasEither(Nodes(nodes[0]), NodesAll(nodes[1..]), Warn);
    }
  }

  // ------------------------------------------------------------------- what is drawn how

  predicate Infra(node: Node) {
    node.children != [] || node.role in {Gateway, Switch, AccessPoint, Host, Nas, Ups, Hypervisor}
  }

  datatype Kind = Carrier | Server | Leaf

  /** Whether a device gets a box with a subtree, a place among servers, or only a tile. */
  function KindOf(node: Node): Kind {
    if !Infra(node) then Leaf
    else if node.children != [] || node.role in {Gateway, Switch, AccessPoint, Hypervisor} then Carrier
    else Server
  }

  function Of(kind: Kind, nodes: seq<Node>): (r: seq<Node>)
    ensures forall n :: n in r ==> n in nodes && KindOf(n) == kind
  {
    if nodes == [] then []
    else if KindOf(nodes[0]) == kind then [nodes[0]] + Of(kind, nodes[1..])
    else Of(kind, nodes[1..])
  }

  function Columns(shown: nat): (cols: nat)
    ensures 1 <= cols <= GROUP_COLS
  {
    Max(1, Min(GROUP_COLS, shown))
  }

  function Rows(shown: nat): nat {
    (shown + Columns(shown) - 1) / Columns(shown)
  }

  function ChipAt(node: Node, i: nat, cols: nat): Chip
    requires cols > 0
  {
    Chip(node, GROUP_PAD + (i % cols) as real * (CHIP_W + CHIP_GAP),
         GROUP_HEAD + (i / cols) as real * (CHIP_H + CHIP_GAP))
  }

  function Shortened(members: seq<Node>): seq<Node> {
    if |members| <= MAX_CHIPS then members else members[..MAX_CHIPS]
  }

  function GroupW(cols: nat): real {
    cols as real * CHIP_W + (cols as real - 1.0) * CHIP_GAP + 2.0 * GROUP_PAD
  }

  function GroupH(rows: nat, more: nat): real {
    GROUP_HEAD + rows as real * CHIP_H + (rows as real - 1.0) * CHIP_GAP + GROUP_PAD + if more > 0 then MORE_H else 0.0
  }

  function GroupOf(members: seq<Node>): Item {
    var shown := Shortened(members);
    var cols, more := Columns(|shown|), |members| - |shown|;
    Item(None, GroupW(cols), GroupH(Rows(|shown|), more),
         seq(|shown|, i requires 0 <= i < |shown| => ChipAt(shown[i], i, cols)), more,
         Worst(TroubleBelowAll(members)), [])
  }

  /** Some devices as a group of tiles, and how many more there are. */
  method Group(members: seq<Node>) returns (item: Item)
    ensures item == GroupOf(members)
  {
    var shown := Shortened(members);
    var cols := Columns(|shown|);
    var chips: seq<Chip> := [];
    for i := 0 to |shown|
      invariant |chips| == i
      invariant forall k :: 0 <= k < i ==> chips[k] == ChipAt(shown[k], k, cols)
    {
      chips := chips + [ChipAt(shown[i], i, cols)];
    }
    var more := |members| - |shown|;
    item := Item(None, GroupW(cols), GroupH(Rows(|shown|), more), chips, more, Worst(TroubleBelowAll(members)), []);
  }

  function BuildOf(node: Node): Item
    decreases node, 1, 0
  {
    var servers, leaves := Of(Server, node.children), Of(Leaf, node.children);
    Item(Some(node), NODE_W, NODE_H, [], 0, TroubleBelow(node),
         (if |servers| >= 2 then [GroupOf(servers)] else BuildAll(node, servers))
         + BuildAll(node, Of(Carrier, node.children))
         + (if leaves != [] then [GroupOf(leaves)] else []))
  }

  function BuildAll(parent: Node, nodes: seq<Node>): (items: seq<Item>)
    requires forall n :: n in nodes ==> n in parent.children
    ensures |items| == |nodes|
    decreases parent, 0, |nodes|
  {
    if nodes == [] then []
    else
      assert nodes[0] in nodes && nodes[0] in parent.children;
      [BuildOf(nodes[0])] + BuildAll(parent, nodes[1..])
  }

  method Build(node: Node) returns (item: Item)
    ensures item == BuildOf(node)
    decreases node, 1
  {
    var servers, carriers, leaves := Of(Server, node.children), Of(Carrier, node.children), Of(Leaf, node.children);
    var children: seq<Item>;
    if |servers| >= 2 {
      var group := Group(servers);
      children := [group];
    } else {
      children := BuildEach(node, servers);
    }
    var more := BuildEach(node, carriers);
    children := children + more;
    if leaves != [] {
      var group := Group(leaves);
      children := children + [group];
    }
    item := Item(Some(node), NODE_W, NODE_H, [], 0, TroubleBelow(node), children);
  }

  method BuildEach(parent: Node, nodes: seq<Node>) returns (items: seq<Item>)
    requires forall n :: n in nodes ==> n in parent.children
    ensures items == BuildAll(parent, nodes)
    decreases parent, 0
  {
    items := [];
    for i := 0 to |nodes|
      invariant items + BuildAll(parent, nodes[i..]) == BuildAll(parent, nodes)
    {
      assert nodes[i] in nodes && nodes[i] in parent.children;
      var item := Build(nodes[i]);
      assert nodes[i..][1..] == nodes[i + 1..];
      items := items + [item];
    }
  }

  // ------------------------------------------------------------------------ where it goes

  /** How wide a subtree is drawn: at least its box, and enough for its children's subtrees. */
  function Width(item: Item): real
    decreases item, 1
  {
    if item.children == [] then item.w else MaxReal(item.w, Total(item.children, GAP_X))
  }

  function Total(items: seq<Item>, gap: real): real
    decreases items, 0
  {
    if items == [] then 0.0
    else if |items| == 1 then Width(items[0])
    else Width(items[0]) + gap + Total(items[1..], gap)
  }

  function Boxes(item: Item, left: real, top: real): (boxes: seq<Drawn>)
    ensures boxes != [] && boxes[0].item == item
    decreases item, 1
  {
    var span := Width(item);
    [Drawn(item, left + (span - item.w) / 2.0, top)]
    + Row(item.children, left + (span - Total(item.children, GAP_X)) / 2.0, top + item.h + GAP_Y, GAP_X)
  }

  function Row(items: seq<Item>, x: real, top: real, gap: real): seq<Drawn>
    decreases items, 0
  {
    if items == [] then [] else Boxes(items[0], x, top) + Row(items[1..], x + Width(items[0]) + gap, top, gap)
  }

  function EdgeTo(parent: Drawn, child: Drawn): Edge {
    Edge(parent.Cx(), parent.y + parent.item.h, child.Cx(), child.y, child.item.problem)
  }

  function Lines(item: Item, left: real, top: real): seq<Edge>
    decreases item, 1
  {
    RowLines(item.children, Boxes(item, left, top)[0], left + (Width(item) - Total(item.children, GAP_X)) / 2.0,
             top + item.h + GAP_Y)
  }

  function RowLines(items: seq<Item>, parent: Drawn, x: real, top: real): seq<Edge>
    decreases items, 0
  {
    if items == [] then []
    else Lines(items[0], x, top) + [EdgeTo(parent, Boxes(items[0], x, top)[0])]
         + RowLines(items[1..], parent, x + Width(items[0]) + GAP_X, top)
  }

  lemma Assoc<T>(a: seq<T>, b: seq<T>, c: seq<T>)
    ensures (a + b) + c == a + (b + c)
  {
  }

  /** Place one subtree, box by box, and the lines between them. */
  method Place(item: Item, left: real, top: real, out: seq<Drawn>, edges: seq<Edge>) returns (out': seq<Drawn>,
          edges': seq<Edge>)
    ensures out' == out + Boxes(item, left, top)
    ensures edges' == edges + Lines(item, left, top)
    decreases item, 1
  {
    var span := Width(item);
    var box := Drawn(item, left + (span - item.w) / 2.0, top);
    out', edges' := out + [box], edges;
    if item.children == [] {
      return;
    }
    var total := Total(item.children, GAP_X);
    var x, childTop := left + (span - total) / 2.0, top + item.h + GAP_Y;
    out', edges' := PlaceUnder(box, item.children, x, childTop, out', edges');
    Assoc(out, [box], Row(item.children, x, childTop, GAP_X));
  }

  /** A box's children, side by side. */
  method PlaceUnder(box: Drawn, items: seq<Item>, left: real, top: real, out: seq<Drawn>, edges: seq<Edge>)
    returns (out': seq<Drawn>, edges': seq<Edge>)
    ensures out' == out + Row(items, left, top, GAP_X)
    ensures edges' == edges + RowLines(items, box, left, top)
    decreases items, 0
  {
    var x := left;
    out', edges' := out, edges;
    for i := 0 to |items|
      invariant out' + Row(items[i..], x, top, GAP_X) == out + Row(items, left, top, GAP_X)
      invariant edges' + RowLines(items[i..], box, x, top) == edges + RowLines(items, box, left, top)
    {
      var child := items[i];
      ghost var placed, lines, rest := out', edges', items[i + 1..];
      assert items[i..][0] == child && items[i..][1..] == rest;
      out', edges' := Place(child, x, top, out', edges');
      var edge := EdgeTo(box, Boxes(child, x, top)[0]);
      edges' := edges' + [edge];
      Assoc(placed, Boxes(child, x, top), Row(rest, x + Width(child) + GAP_X, top, GAP_X));
      Assoc(lines, Lines(child, x, top), [edge]);
      Assoc(lines, Lines(child, x, top) + [edge], RowLines(rest, box, x + Width(child) + GAP_X, top));
      x := x + Width(child) + GAP_X;
    }
  }

  function TreesOf(roots: seq<Node>): (trees: seq<Item>)
    ensures |trees| == |roots|
  {
    seq(|roots|, i requires 0 <= i < |roots| => BuildOf(roots[i]))
  }

  function AllLines(trees: seq<Item>, x: real): seq<Edge> {
    if trees == [] then []
    else Lines(trees[0], x, MARGIN) + AllLines(trees[1..], x + Width(trees[0]) + ROOT_GAP)
  }

  /** Lines in trouble are drawn over those that are not. */
  function Rank(e: Edge): int {
    if e.problem == Some(Bad) then 2 else if e.problem == Some(Warn) then 1 else 0
  }

  /** The whole drawing: the trees from left to right, and the size that holds them. */
  method Layout(roots: seq<Node>) returns (width: real, height: real, items: seq<Drawn>, edges: seq<Edge>)
    ensures items == Row(TreesOf(roots), MARGIN, MARGIN, ROOT_GAP)
    ensures IsSorted(AllLines(TreesOf(roots), MARGIN), edges, Rank)
    ensures items == [] ==> width == height == MARGIN
    ensures forall i :: 0 <= i < |items| ==>
              items[i].x + items[i].item.w + MARGIN <= width && items[i].y + items[i].item.h + MARGIN <= height
    ensures items != [] ==> exists i :: 0 <= i < |items| && items[i].x + items[i].item.w + MARGIN == width
    ensures items != [] ==> exists i :: 0 <= i < |items| && items[i].y + items[i].item.h + MARGIN == height
  {
    var trees := BuildRoots(roots);
    items, edges := PlaceTrees(trees);
    var right := Furthest(items, true);
    var bottom := Furthest(items, false);
    width, height := right + MARGIN, bottom + MARGIN;
    SortedIs(edges, Rank);
    edges := Sorted(edges, Rank);
  }

  method BuildRoots(roots: seq<Node>) returns (trees: seq<Item>)
    ensures trees == TreesOf(roots)
  {
    trees := [];
    for i := 0 to |roots|
      invariant |trees| == i && forall k :: 0 <= k < i ==> trees[k] == BuildOf(roots[k])
    {
      var tree := Build(roots[i]);
      trees := trees + [tree];
    }
  }

  method PlaceTrees(trees: seq<Item>) returns (items: seq<Drawn>, edges: seq<Edge>)
    ensures items == Row(trees, MARGIN, MARGIN, ROOT_GAP)
    ensures edges == AllLines(trees, MARGIN)
  {
    var x := MARGIN;
    items, edges := [], [];
    NoTrees(trees);
    for i := 0 to |trees|
      invariant TreesPlaced(items, edges, trees, i, x)
    {
      TreePlaced(items, edges, trees, i, x);
      items, edges := Place(trees[i], x, MARGIN, items, edges);
      x := x + Width(trees[i]) + ROOT_GAP;
    }
    AllTreesPlaced(items, edges, trees, x);
  }

  /** The first `i` trees are placed, and the next goes at `x`. */
  ghost predicate TreesPlaced(items: seq<Drawn>, edges: seq<Edge>, trees: seq<Item>, i: nat, x: real) {
    && i <= |trees|
    && items + Row(trees[i..], x, MARGIN, ROOT_GAP) == Row(trees, MARGIN, MARGIN, ROOT_GAP)
    && edges + AllLines(trees[i..], x) == AllLines(trees, MARGIN)
  }

  lemma NoTrees(trees: seq<Item>)
    ensures TreesPlaced([], [], trees, 0, MARGIN)
  {
    assert trees[0..] == trees;
  }

  lemma TreePlaced(items: seq<Drawn>, edges: seq<Edge>, trees: seq<Item>, i: nat, x: real)
    requires i < |trees| && TreesPlaced(items, edges, trees, i, x)
    ensures TreesPlaced(items + Boxes(trees[i], x, MARGIN), edges + Lines(trees[i], x, MARGIN), trees, i + 1,
                         x + Width(trees[i]) + ROOT_GAP)
  {
    OneMoreTree(trees, i, x, items, edges);
  }

  lemma AllTreesPlaced(items: seq<Drawn>, edges: seq<Edge>, trees: seq<Item>, x: real)
    requires TreesPlaced(items, edges, trees, |trees|, x)
    ensures items == Row(trees, MARGIN, MARGIN, ROOT_GAP) && edges == AllLines(trees, MARGIN)
  {
    assert trees[|trees|..] == [];
  }

  lemma OneMoreTree(trees: seq<Item>, i: nat, x: real, items: seq<Drawn>, edges: seq<Edge>)
    requires i < |trees|
    ensures var next := x + Width(trees[i]) + ROOT_GAP;
            && items + Row(trees[i..], x, MARGIN, ROOT_GAP)
               == items + Boxes(trees[i], x, MARGIN) + Row(trees[i + 1..], next, MARGIN, ROOT_GAP)
            && edges + AllLines(trees[i..], x) == edges + Lines(trees[i], x, MARGIN) + AllLines(trees[i + 1..], next)
  {
    var next := x + Width(trees[i]) + ROOT_GAP;
    assert trees[i..][0] == trees[i] && trees[i..][1..] == trees[i + 1..];
    Assoc(items, Boxes(trees[i], x, MARGIN), Row(trees[i + 1..], next, MARGIN, ROOT_GAP));
    Assoc(edges, Lines(trees[i], x, MARGIN), AllLines(trees[i + 1..], next));
  }

  function Reach(d: Drawn, across: bool): real {
    if across then d.x + d.item.w else d.y + d.item.h
  }

  /** How far the boxes go to the right, or down; nowhere if there are none. */
  method Furthest(items: seq<Drawn>, across: bool) returns (far: real)
    ensures items == [] ==> far == 0.0
    ensures forall i :: 0 <= i < |items| ==> Reach(items[i], across) <= far
    ensures items != [] ==> exists i :: 0 <= i < |items| && Reach(items[i], across) == far
  {
    if items == [] {
      return 0.0;
    }
    far := Reach(items[0], across);
    for i := 1 to |items|
      invariant forall k :: 0 <= k < i ==> Reach(items[k], across) <= far
      invariant exists k :: 0 <= k < i && Reach(items[k], across) == far
    {
      far := MaxReal(far, Reach(items[i], across));
    }
  }

  // ----------------------------------------------------------------------- room and order

  /** Every item in a tree has some size. */
  predicate Sized(item: Item) {
    item.w > 0.0 && item.h > 0.0 && AllSized(item.children)
  }

  predicate AllSized(items: seq<Item>) {
    items != [] ==> Sized(items[0]) && AllSized(items[1..])
  }

  /** Within a stretch across, and no higher than a line. */
  ghost predicate Within(boxes: seq<Drawn>, left: real, right: real, top: real) {
    forall i :: 0 <= i < |boxes| ==> InRoom(boxes[i], left, right, top)
  }

  predicate InRoom(d: Drawn, left: real, right: real, top: real) {
    left <= d.x && d.x + d.item.w <= right && top <= d.y && d.item.h > 0.0
  }

  lemma WithinMore(a: seq<Drawn>, b: seq<Drawn>, left: real, right: real, top: real, left': real, right': real,
          top': real)
    requires Within(a, left, right, top) && left' <= left && right <= right' && top' <= top
    requires Within(b, left', right', top')
    ensures Within(a + b, left', right', top')
  {
    forall i | 0 <= i < |a + b| ensures InRoom((a + b)[i], left', right', top') {
      if i < |a| {
        assert InRoom(a[i], left, right, top);
      } else {
        assert InRoom(b[i - |a|], left', right', top');
      }
    }
  }

  lemma {:induction false} TotalFits(items: seq<Item>, gap: real)
    requires items != [] && AllSized(items) && gap >= 0.0
    ensures Total(items, gap) >= Width(items[0]) && Width(items[0]) >= items[0].w > 0.0
    decreases items
  {
    if |items| > 1 {
      TotalFits(items[1..], gap);
    }
  }

  /** A subtree keeps to its room: the width worked out for it, and below its top. */
  lemma {:induction false} KeepsToItsRoom(item: Item, left: real, top: real)
    requires Sized(item)
    ensures Within(Boxes(item, left, top), left, left + Width(item), top)
    ensures item.children != [] ==> ChildrenLower(item, left, top)
    decreases item, 1
  {
    var total := Total(item.children, GAP_X);
    var x, childTop := left + (Width(item) - total) / 2.0, top + item.h + GAP_Y;
    var box := Boxes(item, left, top)[0];
    if item.children != [] {
      RowKeepsToItsRoom(item.children, x, childTop, GAP_X);
      WithinMore(Row(item.children, x, childTop, GAP_X), [], x, x + total, childTop, left, left + Width(item), top);
      assert Row(item.children, x, childTop, GAP_X) + [] == Row(item.children, x, childTop, GAP_X);
    }
    assert InRoom(box, left, left + Width(item), top);
    WithinMore([box], Row(item.children, x, childTop, GAP_X), left, left + Width(item), top, left,
               left + Width(item), top);
  }

  /** All that hangs from a box is drawn below its foot. */
  ghost predicate ChildrenLower(item: Item, left: real, top: real) {
    var x := left + (Width(item) - Total(item.children, GAP_X)) / 2.0;
    Within(Row(item.children, x, top + item.h + GAP_Y, GAP_X), x, x + Total(item.children, GAP_X), top + item.h + GAP_Y)
  }

  lemma {:induction false} RowKeepsToItsRoom(items: seq<Item>, x: real, top: real, gap: real)
    requires items != [] && AllSized(items) && gap >= 0.0
    ensures Within(Row(items, x, top, gap), x, x + Total(items, gap), top)
    decreases items, 0
  {
    var w := Width(items[0]);
    KeepsToItsRoom(items[0], x, top);
    TotalFits(items, gap);
    if |items| > 1 {
      RowKeepsToItsRoom(items[1..], x + w + gap, top, gap);
      TotalFits(items[1..], gap);
      var rest := Row(items[1..], x + w + gap, top, gap);
      WithinMore(rest, [], x + w + gap, x + Total(items, gap), top, x, x + Total(items, gap), top);
      assert rest + [] == rest;
      WithinMore(Boxes(items[0], x, top), rest, x, x + w, top, x, x + Total(items, gap), top);
    } else {
      assert Row(items, x, top, gap) == Boxes(items[0], x, top);
    }
  }

  /** Two boxes with daylight between them, or at least no more than an edge shared. */
  predicate Clear(a: Drawn, b: Drawn) {
    || a.x + a.item.w <= b.x || b.x + b.item.w <= a.x
    || a.y + a.item.h <= b.y || b.y + b.item.h <= a.y
  }

  ghost predicate NoOverlap(boxes: seq<Drawn>) {
    forall i, j :: 0 <= i < j < |boxes| ==> Clear(boxes[i], boxes[j])
  }

  lemma SideBySide(a: seq<Drawn>, b: seq<Drawn>, left: real, middle: real, right: real, top: real)
    requires NoOverlap(a) && NoOverlap(b) && Within(a, left, middle, top) && Within(b, middle, right, top)
    ensures NoOverlap(a + b)
  {
    forall i, j | 0 <= i < j < |a + b| ensures Clear((a + b)[i], (a + b)[j]) {
      if i < |a| <= j {
        assert InRoom(a[i], left, middle, top) && InRoom(b[j - |a|], middle, right, top);
      }
    }
  }

  lemma OneAbove(box: Drawn, below: seq<Drawn>, left: real, right: real, top: real)
    requires NoOverlap(below) && Within(below, left, right, top) && box.y + box.item.h <= top
    ensures NoOverlap([box] + below)
  {
    forall i, j | 0 <= i < j < |[box] + below| ensures Clear(([box] + below)[i], ([box] + below)[j]) {
      if i == 0 {
        assert InRoom(below[j - 1], left, right, top);
      }
    }
  }

  /** No two boxes of a tree overlap ... */
  lemma {:induction false} TreeIsClear(item: Item, left: real, top: real)
    requires Sized(item)
    ensures NoOverlap(Boxes(item, left, top))
    decreases item, 1
  {
    if item.children != [] {
      var total := Total(item.children, GAP_X);
      var x, childTop := left + (Width(item) - total) / 2.0, top + item.h + GAP_Y;
      RowIsClear(item.children, x, childTop, GAP_X);
      RowKeepsToItsRoom(item.children, x, childTop, GAP_X);
      OneAbove(Boxes(item, left, top)[0], Row(item.children, x, childTop, GAP_X), x, x + total, childTop);
    }
  }

  /** ... nor of trees side by side. */
  lemma {:induction false} RowIsClear(items: seq<Item>, x: real, top: real, gap: real)
    requires AllSized(items) && gap >= 0.0
    ensures NoOverlap(Row(items, x, top, gap))
    decreases items, 0
  {
    if items != [] {
      var w := Width(items[0]);
      TreeIsClear(items[0], x, top);
      KeepsToItsRoom(items[0], x, top);
      RowIsClear(items[1..], x + w + gap, top, gap);
      if |items| > 1 {
        var rest := Row(items[1..], x + w + gap, top, gap);
        RowKeepsToItsRoom(items[1..], x + w + gap, top, gap);
        TotalFits(items, gap);
        WithinMore(rest, [], x + w + gap, x + w + gap + Total(items[1..], gap), top, x + w, x + Total(items, gap), top);
        assert rest + [] == rest;
        SideBySide(Boxes(items[0], x, top), rest, x, x + w, x + Total(items, gap), top);
      }
    }
  }

  lemma {:induction false} BuildIsSized(node: Node)
    ensures Sized(BuildOf(node))
    decreases node, 1, 0
  {
    var servers, carriers, leaves := Of(Server, node.children), Of(Carrier, node.children), Of(Leaf, node.children);
    var first := if |servers| >= 2 then [GroupOf(servers)] else BuildAll(node, servers);
    var last := if leaves != [] then [GroupOf(leaves)] else [];
    if |servers| >= 2 {
      GroupIsSized(servers);
    } else {
      BuildAllIsSized(node, servers);
    }
    BuildAllIsSized(node, carriers);
    if leaves != [] {
      GroupIsSized(leaves);
    }
    SizedTogether(first, BuildAll(node, carriers));
    SizedTogether(first + BuildAll(node, carriers), last);
  }

  lemma {:induction false} BuildAllIsSized(parent: Node, nodes: seq<Node>)
    requires forall n :: n in nodes ==> n in parent.children
    ensures AllSized(BuildAll(parent, nodes))
    decreases parent, 0, |nodes|
  {
    if nodes != [] {
      assert nodes[0] in nodes && nodes[0] in parent.children;
      BuildIsSized(nodes[0]);
      BuildAllIsSized(parent, nodes[1..]);
    }
  }

  lemma {:induction false} SizedTogether(a: seq<Item>, b: seq<Item>)
    requires AllSized(a) && AllSized(b)
    ensures AllSized(a + b)
    decreases |a|
  {
    if a == [] {
      assert a + b == b;
    } else {
      SizedTogether(a[1..], b);
      assert (a + b)[1..] == a[1..] + b;
    }
  }

  lemma GroupIsSized(members: seq<Node>)
    requires members != []
    ensures Sized(GroupOf(members))
  {
    RowsOf(|Shortened(members)|);
  }

  lemma RowsOf(shown: nat)
    requires shown > 0
    ensures Rows(shown) > 0
  {
    if shown == 1 {
      assert Columns(shown) == 1;
    } else if shown == 2 {
      assert Columns(shown) == 2;
    } else {
      assert Columns(shown) == 3;
    }
  }

  lemma {:induction false} TreesAreSized(roots: seq<Node>)
    ensures AllSized(TreesOf(roots))
    decreases |roots|
  {
    if roots != [] {
      BuildIsSized(roots[0]);
      TreesAreSized(roots[1..]);
      assert TreesOf(roots)[1..] == TreesOf(roots[1..]);
    }
  }

  /** In the whole drawing no two boxes overlap, and none is over its edge. */
  lemma {:induction false} DrawingIsClear(roots: seq<Node>)
    ensures var trees := TreesOf(roots); var boxes := Row(trees, MARGIN, MARGIN, ROOT_GAP);
            NoOverlap(boxes) && Within(boxes, MARGIN, MARGIN + Total(trees, ROOT_GAP), MARGIN)
  {
    TreesAreSized(roots);
    RowIsClear(TreesOf(roots), MARGIN, MARGIN, ROOT_GAP);
    if roots != [] {
      RowKeepsToItsRoom(TreesOf(roots), MARGIN, MARGIN, ROOT_GAP);
    }
  }

  // ----------------------------------------------------------------------------- the tiles

  /** The cell of tile `i`, and that no other tile has it. */
  lemma Cells(i: nat, j: nat, cols: nat, shown: nat)
    requires 1 <= cols <= GROUP_COLS && i < j < shown
    ensures i % cols < cols && j % cols < cols && i / cols <= j / cols < (shown + cols - 1) / cols
    ensures i / cols < j / cols || i % cols < j % cols
  {
    if cols == 1 {
      assert i / 1 == i && j / 1 == j;
    } else if cols == 2 {
    } else {
      assert cols == 3;
    }
  }

  lemma LastCell(i: nat, cols: nat, shown: nat)
    requires 1 <= cols <= GROUP_COLS && i < shown
    ensures i % cols < cols && i / cols < (shown + cols - 1) / cols
  {
    Cells(i, shown, cols, shown + 1);
    if cols == 1 {
      assert i / 1 == i && (shown + 1 - 1) / 1 == shown;
    } else if cols == 2 {
    } else {
      assert cols == 3;
    }
  }

  predicate TileFits(item: Item, c: Chip) {
    && GROUP_PAD <= c.x && c.x + CHIP_W + GROUP_PAD <= item.w
    && GROUP_HEAD <= c.y && c.y + CHIP_H + GROUP_PAD + (if item.more > 0 then MORE_H else 0.0) <= item.h
  }

  predicate TilesClear(a: Chip, b: Chip) {
    a.x + CHIP_W + CHIP_GAP <= b.x || b.x + CHIP_W + CHIP_GAP <= a.x || a.y + CHIP_H + CHIP_GAP <= b.y
  }

  /** A group's tiles lie inside it, with room left for the line that says how many
      more there are, and none overlaps another. */
  lemma {:induction false} TilesFitTheirGroup(members: seq<Node>)
    ensures var item := GroupOf(members);
            && |item.chips| <= MAX_CHIPS && |item.chips| + item.more == |members|
            && (forall i :: 0 <= i < |item.chips| ==> item.chips[i].node == members[i] && TileFits(item, item.chips[i]))
            && forall i, j :: 0 <= i < j < |item.chips| ==> TilesClear(item.chips[i], item.chips[j])
  {
    var item, shown := GroupOf(members), |Shortened(members)|;
    forall i | 0 <= i < |item.chips| ensures TileFits(item, item.chips[i]) {
      LastCell(i, Columns(shown), shown);
    }
    forall i, j | 0 <= i < j < |item.chips| ensures TilesClear(item.chips[i], item.chips[j]) {
      Cells(i, j, Columns(shown), shown);
    }
  }

  // ---------------------------------------------------------------- every device, but once

  function ChipNodes(chips: seq<Chip>): (nodes: seq<Node>)
    ensures |nodes| == |chips| && forall i :: 0 <= i < |chips| ==> nodes[i] == chips[i].node
  {
    seq(|chips|, i requires 0 <= i < |chips| => chips[i].node)
  }

  /** The devices one item shows: its own, or its tiles'. */
  function ItemNodes(item: Item): seq<Node> {
    (if item.node.Some? then [item.node.value] else []) + ChipNodes(item.chips)
  }

  /** The devices a drawing shows. */
  function DrawnNodes(boxes: seq<Drawn>): seq<Node> {
    if boxes == [] then [] else ItemNodes(boxes[0].item) + DrawnNodes(boxes[1..])
  }

  /** The groups among some boxes, first to last. */
  function DrawnGroups(boxes: seq<Drawn>): seq<Item> {
    if boxes == [] then [] else OwnGroup(boxes[0].item) + DrawnGroups(boxes[1..])
  }

  function OwnGroup(item: Item): seq<Item> {
    if item.node.None? then [item] else []
  }

  lemma {:induction false} DrawnTogether(a: seq<Drawn>, b: seq<Drawn>)
    ensures DrawnNodes(a + b) == DrawnNodes(a) + DrawnNodes(b) && DrawnGroups(a + b) == DrawnGroups(a) + DrawnGroups(b)
    decreases |a|
  {
    if a == [] {
      assert a + b == b;
    } else {
      assert (a + b)[1..] == a[1..] + b;
      DrawnTogether(a[1..], b);
    }
  }

  function Shown(item: Item): seq<Node>
    decreases item, 1
  {
    ItemNodes(item) + ShownAll(item.children)
  }

  function ShownAll(items: seq<Item>): seq<Node>
    decreases items, 0
  {
    if items == [] then [] else Shown(items[0]) + ShownAll(items[1..])
  }

  function GroupsIn(item: Item): seq<Item>
    decreases item, 1
  {
    OwnGroup(item) + GroupsInAll(item.children)
  }

  function GroupsInAll(items: seq<Item>): seq<Item>
    decreases items, 0
  {
    if items == [] then [] else GroupsIn(items[0]) + GroupsInAll(items[1..])
  }

  /** What is drawn of a tree is what is in it. */
  lemma {:induction false} TreeIsDrawn(item: Item, left: real, top: real)
    ensures DrawnNodes(Boxes(item, left, top)) == Shown(item) && DrawnGroups(Boxes(item, left, top)) == GroupsIn(item)
    decreases item, 1
  {
    var x, childTop := left + (Width(item) - Total(item.children, GAP_X)) / 2.0, top + item.h + GAP_Y;
    var row := Row(item.children, x, childTop, GAP_X);
    assert Boxes(item, left, top)[1..] == row;
    RowIsDrawn(item.children, x, childTop, GAP_X);
  }

  lemma {:induction false} RowIsDrawn(items: seq<Item>, x: real, top: real, gap: real)
    ensures DrawnNodes(Row(items, x, top, gap)) == ShownAll(items)
            && DrawnGroups(Row(items, x, top, gap)) == GroupsInAll(items)
    decreases items, 0
  {
    if items != [] {
      TreeIsDrawn(items[0], x, top);
      RowIsDrawn(items[1..], x + Width(items[0]) + gap, top, gap);
      DrawnTogether(Boxes(items[0], x, top), Row(items[1..], x + Width(items[0]) + gap, top, gap));
    }
  }

  /** The members of each group in a device's drawing, first to last. */
  function Groups(node: Node): seq<seq<Node>>
    decreases node, 1, 0
  {
    var servers, leaves := Of(Server, node.children), Of(Leaf, node.children);
    (if |servers| >= 2 then [servers] else GroupsAll(node, servers))
    + GroupsAll(node, Of(Carrier, node.children))
    + (if leaves != [] then [leaves] else [])
  }

  function GroupsAll(parent: Node, nodes: seq<Node>): seq<seq<Node>>
    requires forall n :: n in nodes ==> n in parent.children
    decreases parent, 0, |nodes|
  {
    if nodes == [] then []
    else
      assert nodes[0] in nodes && nodes[0] in parent.children;
      Groups(nodes[0]) + GroupsAll(parent, nodes[1..])
  }

  /** The members of one group that it does not show. */
  function Past(members: seq<Node>): seq<Node> {
    members[|Shortened(members)|..]
  }

  function PastAll(groups: seq<seq<Node>>): seq<Node> {
    if groups == [] then [] else Past(groups[0]) + PastAll(groups[1..])
  }

  function GroupsOf(groups: seq<seq<Node>>): seq<Item> {
    if groups == [] then [] else [GroupOf(groups[0])] + GroupsOf(groups[1..])
  }

  /** The groups among some items are of these members, and what the items show
      and what the groups do not are together some devices, each once. */
  ghost predicate Accounts(items: seq<Item>, nodes: seq<Node>, groups: seq<seq<Node>>) {
    GroupsInAll(items) == GroupsOf(groups)
    && multiset(ShownAll(items)) + multiset(PastAll(groups)) == multiset(nodes)
  }

  lemma {:induction false} ShownTogether(a: seq<Item>, b: seq<Item>)
    ensures ShownAll(a + b) == ShownAll(a) + ShownAll(b) && GroupsInAll(a + b) == GroupsInAll(a) + GroupsInAll(b)
    decreases |a|
  {
    if a == [] {
      assert a + b == b;
    } else {
      assert (a + b)[1..] == a[1..] + b;
      ShownTogether(a[1..], b);
    }
  }

  lemma {:induction false} PastTogether(g: seq<seq<Node>>, h: seq<seq<Node>>)
    ensures PastAll(g + h) == PastAll(g) + PastAll(h)
    decreases |g|
  {
    if g == [] {
      assert g + h == h;
    } else {
      assert (g + h)[1..] == g[1..] + h && (g + h)[0] == g[0];
      PastTogether(g[1..], h);
      Assoc(Past(g[0]), PastAll(g[1..]), PastAll(h));
    }
  }

  lemma {:induction false} GroupsTogether(g: seq<seq<Node>>, h: seq<seq<Node>>)
    ensures GroupsOf(g + h) == GroupsOf(g) + GroupsOf(h)
    decreases |g|
  {
    if g == [] {
      assert g + h == h;
    } else {
      assert (g + h)[1..] == g[1..] + h && (g + h)[0] == g[0];
      GroupsTogether(g[1..], h);
      Assoc([GroupOf(g[0])], GroupsOf(g[1..]), GroupsOf(h));
    }
  }

  lemma {:induction false} AccountTogether(a: seq<Item>, b: seq<Item>, m: seq<Node>, n: seq<Node>, g: seq<seq<Node>>,
          h: seq<seq<Node>>)
    requires Accounts(a, m, g) && Accounts(b, n, h)
    ensures Accounts(a + b, m + n, g + h)
  {
    ShownTogether(a, b);
    GroupsTogether(g, h);
    PastTogether(g, h);
    assert multiset(ShownAll(a) + ShownAll(b)) == multiset(ShownAll(a)) + multiset(ShownAll(b));
    assert multiset(PastAll(g) + PastAll(h)) == multiset(PastAll(g)) + multiset(PastAll(h));
    assert multiset(m + n) == multiset(m) + multiset(n);
  }

  lemma SameAccount(items: seq<Item>, m: seq<Node>, n: seq<Node>, groups: seq<seq<Node>>)
    requires Accounts(items, m, groups) && multiset(m) == multiset(n)
    ensures Accounts(items, n, groups)
  {
  }

  lemma AloneIs(node: Node)
    requires node.children == []
    ensures Nodes(node) == [node]
  {
  }

  /** Devices with nothing below them are their own whole trees. */
  lemma {:induction false} AloneAre(nodes: seq<Node>)
    requires forall n :: n in nodes ==> n.children == []
    ensures NodesAll(nodes) == nodes
  {
    if nodes != [] {
      AloneAre(nodes[1..]);
      AloneIs(nodes[0]);
      assert nodes == [nodes[0]] + nodes[1..];
    }
  }

  lemma {:induction false} GroupAccounts(members: seq<Node>)
    requires members != [] && forall n :: n in members ==> n.children == []
    ensures Accounts([GroupOf(members)], NodesAll(members), [members])
  {
    AloneAre(members);
    var item, shown := GroupOf(members), Shortened(members);
    assert ChipNodes(item.chips) == shown;
    assert ShownAll([item]) == shown && PastAll([members]) == Past(members);
    assert members == shown + Past(members);
    assert multiset(members) == multiset(shown) + multiset(Past(members));
  }

  function All(kind: Kind, nodes: seq<Node>): multiset<Node> {
    multiset(NodesAll(Of(kind, nodes)))
  }

  lemma OfFirst(kind: Kind, nodes: seq<Node>)
    requires nodes != []
    ensures All(kind, nodes)
            == (if KindOf(nodes[0]) == kind then multiset(Nodes(nodes[0])) else multiset{}) + All(kind, nodes[1..])
  {
    if KindOf(nodes[0]) == kind {
      assert Of(kind, nodes)[1..] == Of(kind, nodes[1..]);
      assert NodesAll(Of(kind, nodes)) == Nodes(nodes[0]) + NodesAll(Of(kind, nodes[1..]));
    }
  }

  /** The three kinds of children are all of them. */
  lemma {:induction false} KindsAreAll(nodes: seq<Node>)
    ensures All(Server, nodes) + All(Carrier, nodes) + All(Leaf, nodes) == multiset(NodesAll(nodes))
    decreases |nodes|
  {
    if nodes != [] {
      KindsAreAll(nodes[1..]);
      OfFirst(Server, nodes);
      OfFirst(Carrier, nodes);
      OfFirst(Leaf, nodes);
      KindsAdd(multiset(Nodes(nodes[0])), KindOf(nodes[0]), nodes[1..]);
      assert NodesAll(nodes) == Nodes(nodes[0]) + NodesAll(nodes[1..]);
    }
  }

  lemma KindsAdd(m: multiset<Node>, kind: Kind, rest: seq<Node>)
    ensures (if kind == Server then m else multiset{}) + All(Server, rest)
            + ((if kind == Carrier then m else multiset{}) + All(Carrier, rest))
            + ((if kind == Leaf then m else multiset{}) + All(Leaf, rest))
            == m + (All(Server, rest) + All(Carrier, rest) + All(Leaf, rest))
  {
  }

  lemma LeavesHaveNone(nodes: seq<Node>, kind: Kind)
    requires kind != Carrier
    ensures forall n :: n in Of(kind, nodes) ==> n.children == []
  {
  }

  lemma {:induction false} TreeAccounts(node: Node)
    ensures Accounts([BuildOf(node)], Nodes(node), Groups(node))
    decreases node, 1, 0
  {
    var servers, carriers, leaves := Of(Server, node.children), Of(Carrier, node.children), Of(Leaf, node.children);
    var first := if |servers| >= 2 then [GroupOf(servers)] else BuildAll(node, servers);
    var last := if leaves != [] then [GroupOf(leaves)] else [];
    var g := if |servers| >= 2 then [servers] else GroupsAll(node, servers);
    var h := if leaves != [] then [leaves] else [];
    LeavesHaveNone(node.children, Server);
    LeavesHaveNone(node.children, Leaf);
    if |servers| >= 2 {
      GroupAccounts(servers);
    } else {
      BuildAllAccounts(node, servers);
    }
    BuildAllAccounts(node, carriers);
    if leaves != [] {
      GroupAccounts(leaves);
    }
    ChildrenAccount(node, first, BuildAll(node, carriers), last, g, GroupsAll(node, carriers), h);
    BoxAccounts(BuildOf(node), node, Groups(node));
  }

  lemma {:induction false} ChildrenAccount(node: Node, a: seq<Item>, b: seq<Item>, c: seq<Item>, g: seq<seq<Node>>,
          h: seq<seq<Node>>, k: seq<seq<Node>>)
    requires Accounts(a, NodesAll(Of(Server, node.children)), g) && Accounts(b, NodesAll(Of(Carrier, node.children)), h)
    requires Accounts(c, NodesAll(Of(Leaf, node.children)), k)
    ensures Accounts(a + b + c, NodesAll(node.children), g + h + k)
  {
    var m, n, o := NodesAll(Of(Server, node.children)), NodesAll(Of(Carrier, node.children)),
                   NodesAll(Of(Leaf, node.children));
    AccountTogether(a, b, m, n, g, h);
    AccountTogether(a + b, c, m + n, o, g + h, k);
    KindsAreAll(node.children);
    assert multiset(m + n + o) == multiset(m) + multiset(n) + multiset(o);
    SameAccount(a + b + c, m + n + o, NodesAll(node.children), g + h + k);
  }

  lemma BoxAccounts(item: Item, node: Node, groups: seq<seq<Node>>)
    requires item.node == Some(node) && item.chips == [] && Accounts(item.children, NodesAll(node.children), groups)
    ensures Accounts([item], Nodes(node), groups)
  {
    assert ItemNodes(item) == [node];
    assert ShownAll([item]) == [node] + ShownAll(item.children);
    assert GroupsInAll([item]) == GroupsInAll(item.children);
    assert multiset([node] + ShownAll(item.children)) == multiset([node]) + multiset(ShownAll(item.children));
    assert multiset(Nodes(node)) == multiset([node]) + multiset(NodesAll(node.children));
  }

  lemma {:induction false} BuildAllAccounts(parent: Node, nodes: seq<Node>)
    requires forall n :: n in nodes ==> n in parent.children
    ensures Accounts(BuildAll(parent, nodes), NodesAll(nodes), GroupsAll(parent, nodes))
    decreases parent, 0, |nodes|
  {
    if nodes != [] {
      assert nodes[0] in nodes && nodes[0] in parent.children;
      TreeAccounts(nodes[0]);
      BuildAllAccounts(parent, nodes[1..]);
      AccountTogether([BuildOf(nodes[0])], BuildAll(parent, nodes[1..]), Nodes(nodes[0]), NodesAll(nodes[1..]),
                      Groups(nodes[0]), GroupsAll(parent, nodes[1..]));
    }
  }

  /** The members of the groups in a whole drawing. */
  function GroupsOfRoots(roots: seq<Node>): seq<seq<Node>> {
    if roots == [] then [] else Groups(roots[0]) + GroupsOfRoots(roots[1..])
  }

  lemma TreesOfFirst(roots: seq<Node>)
    requires roots != []
    ensures TreesOf(roots) == [BuildOf(roots[0])] + TreesOf(roots[1..])
  {
  }

  lemma NodesOfFirst(nodes: seq<Node>)
    requires nodes != []
    ensures NodesAll(nodes) == Nodes(nodes[0]) + NodesAll(nodes[1..])
  {
  }

  lemma {:induction false} TreesAccount(roots: seq<Node>)
    ensures Accounts(TreesOf(roots), NodesAll(roots), GroupsOfRoots(roots))
    decreases |roots|
  {
    if roots != [] {
      TreeAccounts(roots[0]);
      TreesAccount(roots[1..]);
      AccountTogether([BuildOf(roots[0])], TreesOf(roots[1..]), Nodes(roots[0]), NodesAll(roots[1..]),
                      Groups(roots[0]), GroupsOfRoots(roots[1..]));
      TreesOfFirst(roots);
      NodesOfFirst(roots);
    }
  }

  /** Every device of the trees is drawn once, as a box or a tile, or is one of
      the members past the last tile of one group: the groups drawn are those of
      the servers and the end devices of each device, in order, and what is not
      drawn are the members they do not show, as many as each one says. */
  lemma {:induction false} EveryDeviceDrawnOrCounted(roots: seq<Node>)
    ensures var boxes, groups := Row(TreesOf(roots), MARGIN, MARGIN, ROOT_GAP), GroupsOfRoots(roots);
            && multiset(DrawnNodes(boxes)) + multiset(PastAll(groups)) == multiset(NodesAll(roots))
            && |DrawnGroups(boxes)| == |groups|
            && forall i :: 0 <= i < |groups| ==>
                 DrawnGroups(boxes)[i] == GroupOf(groups[i]) && DrawnGroups(boxes)[i].more == |Past(groups[i])|
  {
    RowIsDrawn(TreesOf(roots), MARGIN, MARGIN, ROOT_GAP);
    TreesAccount(roots);
    GroupsAreOf(GroupsOfRoots(roots));
  }

  lemma {:induction false} GroupsAreOf(groups: seq<seq<Node>>)
    ensures |GroupsOf(groups)| == |groups|
    ensures forall i :: 0 <= i < |groups| ==> GroupsOf(groups)[i] == GroupOf(groups[i])
    decreases |groups|
  {
    if groups != [] {
      GroupsAreOf(groups[1..]);
    }
  }

  // ------------------------------------------------------------------------------ the lines

  predicate EndsAt(e: Edge, d: Drawn) {
    e.toX == d.Cx() && e.toY == d.y && e.problem == d.item.problem
  }

  predicate LedTo(lines: seq<Edge>, d: Drawn) {
    exists k :: 0 <= k < |lines| && EndsAt(lines[k], d)
  }

  lemma LedToStill(a: seq<Edge>, b: seq<Edge>, c: seq<Edge>, d: Drawn)
    requires LedTo(b, d)
    ensures LedTo(a + b + c, d)
  {
    var k :| 0 <= k < |b| && EndsAt(b[k], d);
    assert (a + b + c)[|a| + k] == b[k];
  }

  /** One line to every box but the top one, in the colour of what is below it. */
  lemma {:induction false} OneLineToEach(item: Item, left: real, top: real)
    ensures var boxes, lines := Boxes(item, left, top), Lines(item, left, top);
            |lines| == |boxes| - 1 && forall i :: 1 <= i < |boxes| ==> LedTo(lines, boxes[i])
    decreases item, 1
  {
    var x, childTop := left + (Width(item) - Total(item.children, GAP_X)) / 2.0, top + item.h + GAP_Y;
    var row := Row(item.children, x, childTop, GAP_X);
    LinesToRow(item.children, Boxes(item, left, top)[0], x, childTop);
    forall i | 1 <= i < |Boxes(item, left, top)| ensures LedTo(Lines(item, left, top), Boxes(item, left, top)[i]) {
      assert Boxes(item, left, top)[i] == row[i - 1];
    }
  }

  lemma {:induction false} LinesToRow(items: seq<Item>, parent: Drawn, x: real, top: real)
    ensures var boxes, lines := Row(items, x, top, GAP_X), RowLines(items, parent, x, top);
            |lines| == |boxes| && forall i :: 0 <= i < |boxes| ==> LedTo(lines, boxes[i])
    decreases items, 0
  {
    if items != [] {
      var next := x + Width(items[0]) + GAP_X;
      var first, rest := Boxes(items[0], x, top), Row(items[1..], next, top, GAP_X);
      var lines, edge, more := Lines(items[0], x, top), EdgeTo(parent, first[0]),
                               RowLines(items[1..], parent, next, top);
      OneLineToEach(items[0], x, top);
      LinesToRow(items[1..], parent, next, top);
      forall i | 0 <= i < |first + rest| ensures LedTo(lines + [edge] + more, (first + rest)[i]) {
        if i == 0 {
          assert EndsAt([edge][0], first[0]);
          LedToStill(lines, [edge], more, first[0]);
        } else if i < |first| {
          LedToStill([], lines, [edge] + more, first[i]);
          assert [] + lines + ([edge] + more) == lines + [edge] + more;
        } else {
          LedToStill(lines + [edge], more, [], rest[i - |first|]);
          assert lines + [edge] + more + [] == lines + [edge] + more;
        }
      }
    }
  }
}
