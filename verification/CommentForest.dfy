/** The comment page: rows become a sorted forest of shared, mutable nodes; nesting is capped and what
    lies deeper is flattened, in reading order, into the tail of its ancestor at the cap. */
module CommentForest {
  import opened Wrappers
  import opened Sorting

  const DEPTH_CAP := 8

  /** A node dictionary of the page. */
  datatype Comment = Comment(children: seq<nat>, tail: Option<seq<nat>>, level: nat, descendants: nat, flat: bool)

  /** Left-child right-sibling: the trees of `kids` hang under `id`, the trees of `rest` follow it. */
  datatype Forest = Nil | Tree(id: nat, kids: Forest, rest: Forest)

  function Roots(f: Forest): seq<nat> {
    if f.Nil? then [] else [f.id] + Roots(f.rest)
  }

  function Preorder(f: Forest): seq<nat> {
    if f.Nil? then [] else [f.id] + Preorder(f.kids) + Preorder(f.rest)
  }

  function Size(f: Forest): nat {
    if f.Nil? then 0 else 1 + Size(f.kids) + Size(f.rest)
  }

  function Ids(f: Forest): set<nat> {
    if f.Nil? then {} else {f.id} + Ids(f.kids) + Ids(f.rest)
  }

  /** No id occurs twice. */
  predicate Distinct(f: Forest) {
    f.Tree? ==>
      && f.id !in Ids(f.kids) && f.id !in Ids(f.rest) && Ids(f.kids) !! Ids(f.rest)
      && Distinct(f.kids) && Distinct(f.rest)
  }

  /** The node dictionaries link up as the forest does. */
  predicate Stands(nodes: map<nat, Comment>, f: Forest) {
    f.Tree? ==>
      && f.id in nodes && nodes[f.id].children == Roots(f.kids) && nodes[f.id].tail == None && !nodes[f.id].flat
      && Stands(nodes, f.kids) && Stands(nodes, f.rest)
  }

  /// The rendered page as a value

  function FlatView(kids: Forest, depth: nat): Comment {
    Comment([], None, depth, Size(kids), true)
  }

  /** Every node of `f` flattened, its top-most trees at `depth`. */
  function Flattened(f: Forest, depth: nat): map<nat, Comment> {
    if f.Nil? then map[]
    else map[f.id := FlatView(f.kids, depth)] + Flattened(f.kids, depth + 1) + Flattened(f.rest, depth)
  }

  function NestedView(kids: Forest, level: nat): Comment {
    if level >= DEPTH_CAP && kids.Tree?
    then Comment([], Some(Preorder(kids)), DEPTH_CAP, Size(kids), false)
    else Comment(Roots(kids), None, if level < DEPTH_CAP then level else DEPTH_CAP, Size(kids), false)
  }

  function Below(kids: Forest, level: nat): map<nat, Comment>
    decreases kids, 1
  {
    if level >= DEPTH_CAP && kids.Tree? then Flattened(kids, level + 1) else Capped(kids, level + 1)
  }

  function Capped(f: Forest, level: nat): map<nat, Comment>
    decreases f, 0
  {
    if f.Nil? then map[]
    else map[f.id := NestedView(f.kids, level)] + Below(f.kids, level) + Capped(f.rest, level)
  }

  lemma {:induction false} FlattenedKeys(f: Forest, depth: nat)
    ensures Flattened(f, depth).Keys == Ids(f)
  {
    if f.Nil? {
    } else {
      FlattenedKeys(f.kids, depth + 1);
      FlattenedKeys(f.rest, depth);
    }
  }

  lemma {:induction false} CappedKeys(f: Forest, level: nat)
    ensures Capped(f, level).Keys == Ids(f)
  {
    if f.Nil? {
    } else {
      FlattenedKeys(f.kids, level + 1);
      CappedKeys(f.kids, level + 1);
      CappedKeys(f.rest, level);
    }
  }

  lemma BelowKeys(kids: Forest, level: nat)
    ensures Below(kids, level).Keys == Ids(kids)
  {
    FlattenedKeys(kids, level + 1);
    CappedKeys(kids, level + 1);
  }

  /** Changing nodes outside the forest leaves it standing. */
  lemma {:induction false} StandsApart(nodes: map<nat, Comment>, change: map<nat, Comment>, f: Forest)
    requires Stands(nodes, f) && change.Keys !! Ids(f)
    ensures Stands(nodes + change, f)
  {
    if f.Nil? {
    } else {
      StandsApart(nodes, change, f.kids);
      StandsApart(nodes, change, f.rest);
    }
  }

  /// Counting with an explicit stack

  /** The subtrees under the roots of a forest. */
  function Subtrees(f: Forest): (s: seq<Forest>)
    ensures |s| == |Roots(f)|
  {
    if f.Nil? then [] else [f.kids] + Subtrees(f.rest)
  }

  /** One per tree, plus everything under it. */
  function Weight(s: seq<Forest>): nat {
    if s == [] then 0 else Weight(s[..|s| - 1]) + 1 + Size(s[|s| - 1])
  }

  lemma {:induction false} WeightConcat(s: seq<Forest>, t: seq<Forest>)
    ensures Weight(s + t) == Weight(s) + Weight(t)
  {
    if t == [] {
      assert s + t == s;
    } else {
      assert (s + t)[..|s + t| - 1] == s + t[..|t| - 1];
      WeightConcat(s, t[..|t| - 1]);
    }
  }

  lemma {:induction false} WeightOfSubtrees(f: Forest)
    ensures Weight(Subtrees(f)) == Size(f)
  {
    if f.Nil? {
    } else {
      WeightConcat([f.kids], Subtrees(f.rest));
      WeightOfSubtrees(f.rest);
      assert [f.kids][..0] == [];
    }
  }

  /** Stack entry `i` is a node under which `work[i]` stands. */
  ghost predicate Stacked(nodes: map<nat, Comment>, stack: seq<nat>, work: seq<Forest>) {
    && |stack| == |work|
    && forall i :: 0 <= i < |stack| ==>
         stack[i] in nodes && nodes[stack[i]].children == Roots(work[i]) && Stands(nodes, work[i])
  }

  lemma {:induction false} RootsStack(nodes: map<nat, Comment>, f: Forest)
    requires Stands(nodes, f)
    ensures Stacked(nodes, Roots(f), Subtrees(f))
  {
    if f.Nil? {
    } else {
      RootsStack(nodes, f.rest);
    }
  }

  lemma StackConcat(nodes: map<nat, Comment>, stack: seq<nat>, work: seq<Forest>, more: seq<nat>, moreWork: seq<Forest>)
    requires Stacked(nodes, stack, work) && Stacked(nodes, more, moreWork)
    ensures Stacked(nodes, stack + more, work + moreWork)
  {
  }

  lemma PopWeight(work: seq<Forest>)
    requires work != []
    ensures Weight(work) == 1 + Weight(work[..|work| - 1] + Subtrees(work[|work| - 1]))
  {
    WeightOfSubtrees(work[|work| - 1]);
    WeightConcat(work[..|work| - 1], Subtrees(work[|work| - 1]));
  }

  /** Popping a node and pushing its children keeps the stack honest and loses exactly that node. */
  lemma PopAndPush(nodes: map<nat, Comment>, stack: seq<nat>, work: seq<Forest>)
    requires Stacked(nodes, stack, work) && stack != []
    ensures var n := |stack| - 1;
            var below := work[..n] + Subtrees(work[n]);
            Stacked(nodes, stack[..n] + nodes[stack[n]].children, below) && Weight(work) == 1 + Weight(below)
  {
    var n := |stack| - 1;
    RootsStack(nodes, work[n]);
    StackConcat(nodes, stack[..n], work[..n], nodes[stack[n]].children, Subtrees(work[n]));
    PopWeight(work);
  }

  method CountDescendants(nodes: map<nat, Comment>, id: nat, ghost kids: Forest) returns (total: nat)
    requires id in nodes && nodes[id].children == Roots(kids) && Stands(nodes, kids)
    ensures total == Size(kids)
  {
    total := 0;
    var stack := nodes[id].children;
    ghost var work := Subtrees(kids);
    RootsStack(nodes, kids);
    WeightOfSubtrees(kids);
    while stack != []
      invariant Stacked(nodes, stack, work)
      invariant total + Weight(work) == Size(kids)
      decreases Weight(work)
    {
      PopAndPush(nodes, stack, work);
      var current := stack[|stack| - 1];
      stack := stack[..|stack| - 1];
      total := total + 1;
      stack := stack + nodes[current].children;
      work := work[..|work| - 1] + Subtrees(work[|work| - 1]);
    }
  }

  /// Capping, in place

  /** Node `id` with the forest `kids` standing under it. */
  predicate StandsUnder(nodes: map<nat, Comment>, id: nat, kids: Forest) {
    && id in nodes && nodes[id].children == Roots(kids) && nodes[id].tail == None && !nodes[id].flat
    && Stands(nodes, kids) && Distinct(kids) && id !in Ids(kids)
  }

  function FlattenedTree(id: nat, kids: Forest, depth: nat): map<nat, Comment> {
    map[id := FlatView(kids, depth)] + Flattened(kids, depth + 1)
  }

  function CappedTree(id: nat, kids: Forest, level: nat): map<nat, Comment> {
    map[id := NestedView(kids, level)] + Below(kids, level)
  }

  /** The trees of `rest` still stand, and flattening them finishes the job. */
  ghost predicate Flattening(nodes: map<nat, Comment>, rest: Forest, depth: nat, goal: map<nat, Comment>) {
    Stands(nodes, rest) && Distinct(rest) && nodes + Flattened(rest, depth) == goal
  }

  lemma FlattenFirst(nodes: map<nat, Comment>, f: Forest, depth: nat, goal: map<nat, Comment>)
    requires f.Tree? && Flattening(nodes, f, depth, goal)
    ensures StandsUnder(nodes, f.id, f.kids)
    ensures Flattening(nodes + FlattenedTree(f.id, f.kids, depth), f.rest, depth, goal)
  {
    var first := FlattenedTree(f.id, f.kids, depth);
    FlattenedKeys(f.kids, depth + 1);
    StandsApart(nodes, first, f.rest);
    assert Flattened(f, depth) == first + Flattened(f.rest, depth);
  }

  lemma NextRoot(ids: seq<nat>, i: nat, rest: Forest)
    requires i < |ids| && ids[i..] == Roots(rest)
    ensures rest.Tree? && ids[i] == rest.id && ids[i + 1..] == Roots(rest.rest)
  {
    assert ids[i..][0] == ids[i] && ids[i..][1..] == ids[i + 1..];
  }

  lemma UnderneathOnly(nodes: map<nat, Comment>, id: nat, kids: Forest, level: nat)
    requires StandsUnder(nodes, id, kids)
    ensures Roots(kids) == [] <==> kids.Nil?
    ensures (nodes + Below(kids, level))[id := nodes[id]] == nodes + Below(kids, level)
  {
    BelowKeys(kids, level);
  }

  function Tailed(node: Comment, kids: Forest, level: nat): Comment {
    if level >= DEPTH_CAP && kids.Tree? then node.(tail := Some(Preorder(kids)), children := []) else node
  }

  /** Writing the node before or after what is under it comes to the same. */
  lemma CapReady(nodes: map<nat, Comment>, id: nat, kids: Forest, level: nat, node: Comment)
    requires StandsUnder(nodes, id, kids) && Tailed(node, kids, level) == NestedView(kids, level)
    requires node.children == Roots(kids) && node.tail == None && !node.flat
    ensures StandsUnder(nodes[id := node], id, kids)
    ensures (nodes[id := node] + Below(kids, level))[id := Tailed(node, kids, level)]
            == nodes + CappedTree(id, kids, level)
  {
    StandsApart(nodes, map[id := node], kids);
    assert nodes[id := node] == nodes + map[id := node];
    BelowKeys(kids, level);
  }

  ghost predicate Listing(flat: seq<nat>, rest: Forest, goal: seq<nat>) {
    flat + Preorder(rest) == goal
  }

  lemma ListFirst(flat: seq<nat>, f: Forest, goal: seq<nat>)
    requires f.Tree? && Listing(flat, f, goal)
    ensures Listing(flat + [f.id] + Preorder(f.kids), f.rest, goal)
  {
  }

  class Page {
    var nodes: map<nat, Comment>

    method Walk(id: nat, depth: nat, flat: seq<nat>, ghost kids: Forest) returns (longer: seq<nat>)
      requires StandsUnder(nodes, id, kids)
      modifies this
      ensures nodes == old(nodes) + FlattenedTree(id, kids, depth)
      ensures longer == flat + [id] + Preorder(kids)
      decreases kids, 1
    {
      var total := CountDescendants(nodes, id, kids);
      var children := nodes[id].children;
      longer := flat + [id];
      StandsApart(nodes, map[id := FlatView(kids, depth)], kids);
      nodes := nodes[id := Comment([], None, depth, total, true)];
      assert nodes == old(nodes) + map[id := FlatView(kids, depth)];
      longer := WalkAll(children, depth + 1, longer, kids);
    }

    /** Walks the trees one after the other; `f` is what stands under `ids`. */
    method WalkAll(ids: seq<nat>, depth: nat, flat: seq<nat>, ghost f: Forest) returns (longer: seq<nat>)
      requires ids == Roots(f) && Stands(nodes, f) && Distinct(f)
      modifies this
      ensures nodes == old(nodes) + Flattened(f, depth)
      ensures longer == flat + Preorder(f)
      decreases f, 0
    {
      longer := flat;
      ghost var rest := f;
      ghost var goal, list := nodes + Flattened(f, depth), flat + Preorder(f);
      for i := 0 to |ids|
        invariant ids[i..] == Roots(rest)
        invariant rest == f || rest < f
        invariant Flattening(nodes, rest, depth, goal)
        invariant Listing(longer, rest, list)
      {
        NextRoot(ids, i, rest);
        FlattenFirst(nodes, rest, depth, goal);
        ListFirst(longer, rest, list);
        longer := Walk(ids[i], depth, longer, rest.kids);
        rest := rest.rest;
      }
    }

    method FlattenInorder(ids: seq<nat>, startDepth: nat, ghost f: Forest) returns (flat: seq<nat>)
      requires ids == Roots(f) && Stands(nodes, f) && Distinct(f)
      modifies this
      ensures nodes == old(nodes) + Flattened(f, startDepth)
      ensures flat == Preorder(f)
    {
      flat := WalkAll(ids, startDepth, [], f);
    }

    /** Flattens what is under a node at the cap into its tail; caps it otherwise. */
    method CapUnder(id: nat, level: nat, ghost kids: Forest)
      requires StandsUnder(nodes, id, kids)
      modifies this
      ensures nodes == (old(nodes) + Below(kids, level))[id := Tailed(old(nodes)[id], kids, level)]
      decreases kids, 1
    {
      UnderneathOnly(nodes, id, kids, level);
      var node := nodes[id];
      if level >= DEPTH_CAP && node.children != [] {
        var tail := FlattenInorder(node.children, level + 1, kids);
        nodes := nodes[id := node.(tail := Some(tail), children := [])];
      } else {
        CapCommentDepth(node.children, level + 1, kids);
      }
    }

    /** Sets the level and the count of one node before its subtree is touched. */
    method CapOne(id: nat, level: nat, ghost kids: Forest)
      requires StandsUnder(nodes, id, kids)
      modifies this
      ensures nodes == old(nodes) + CappedTree(id, kids, level)
      decreases kids, 2
    {
      var total := CountDescendants(nodes, id, kids);
      var node := nodes[id].(level := if level < DEPTH_CAP then level else DEPTH_CAP, descendants := total);
      CapReady(nodes, id, kids, level, node);
      nodes := nodes[id := node];
      CapUnder(id, level, kids);
    }

    method CapCommentDepth(ids: seq<nat>, level: nat, ghost f: Forest)
      requires ids == Roots(f) && Stands(nodes, f) && Distinct(f)
      modifies this
      ensures nodes == old(nodes) + Capped(f, level)
      decreases f, 0
    {
      ghost var rest := f;
      ghost var goal := nodes + Capped(f, level);
      for i := 0 to |ids|
        invariant ids[i..] == Roots(rest)
        invariant rest == f || rest < f
        invariant Capping(nodes, rest, level, goal)
      {
        NextRoot(ids, i, rest);
        CapFirst(nodes, rest, level, goal);
        CapOne(ids[i], level, rest.kids);
        rest := rest.rest;
      }
    }
  }

  ghost predicate Capping(nodes: map<nat, Comment>, rest: Forest, level: nat, goal: map<nat, Comment>) {
    Stands(nodes, rest) && Distinct(rest) && nodes + Capped(rest, level) == goal
  }

  lemma CapFirst(nodes: map<nat, Comment>, f: Forest, level: nat, goal: map<nat, Comment>)
    requires f.Tree? && Capping(nodes, f, level, goal)
    ensures StandsUnder(nodes, f.id, f.kids)
    ensures Capping(nodes + CappedTree(f.id, f.kids, level), f.rest, level, goal)
  {
    var first := CappedTree(f.id, f.kids, level);
    BelowKeys(f.kids, level);
    StandsApart(nodes, first, f.rest);
    assert Capped(f, level) == first + Capped(f.rest, level);
  }

  /// What the capped page shows

  /** The template: a node, then its tail, then its children. */
  function Reading(nodes: map<nat, Comment>, ids: seq<nat>, room: nat): seq<nat>
    decreases room, |ids|
  {
    if room == 0 || ids == [] then []
    else
      (if ids[0] in nodes then
         var node := nodes[ids[0]];
         [ids[0]] + Reading(nodes, if node.tail.Some? then node.tail.value else [], room - 1)
         + Reading(nodes, node.children, room - 1)
       else [])
      + Reading(nodes, ids[1..], room)
  }

  predicate IsLeaf(nodes: map<nat, Comment>, id: nat) {
    id in nodes && nodes[id].children == [] && nodes[id].tail == None
  }

  lemma {:induction false} LeavesRead(nodes: map<nat, Comment>, ids: seq<nat>, room: nat)
    requires room > 0 && forall id :: id in ids ==> IsLeaf(nodes, id)
    ensures Reading(nodes, ids, room) == ids
  {
    if ids == [] {
    } else {
      assert IsLeaf(nodes, ids[0]);
      LeavesRead(nodes, ids[1..], room);
    }
  }

  lemma {:induction false} PreorderIds(f: Forest, id: nat)
    ensures id in Preorder(f) <==> id in Ids(f)
  {
    if f.Nil? {
    } else {
      PreorderIds(f.kids, id);
      PreorderIds(f.rest, id);
    }
  }

  lemma UniqueJoin(id: nat, a: seq<nat>, b: seq<nat>)
    requires Unique(a) && Unique(b) && id !in a && id !in b && forall x :: x in a ==> x !in b
    ensures Unique([id] + a + b)
  {
    assert multiset([id] + a + b) == multiset{id} + multiset(a) + multiset(b);
    forall x
      ensures multiset([id] + a + b)[x] <= 1
    {
      assert (x in a <==> multiset(a)[x] > 0) && (x in b <==> multiset(b)[x] > 0);
    }
  }

  lemma {:induction false} PreorderUnique(f: Forest)
    requires Distinct(f)
    ensures Unique(Preorder(f)) && |Ids(f)| == Size(f)
  {
    if f.Nil? {
    } else {
      PreorderUnique(f.kids);
      PreorderUnique(f.rest);
      forall x
        ensures (x in Preorder(f.kids) <==> x in Ids(f.kids)) && (x in Preorder(f.rest) <==> x in Ids(f.rest))
      {
        PreorderIds(f.kids, x);
        PreorderIds(f.rest, x);
      }
      UniqueJoin(f.id, Preorder(f.kids), Preorder(f.rest));
    }
  }

  lemma {:induction false} FlattenedIsLeaf(f: Forest, depth: nat, id: nat)
    requires id in Ids(f)
    ensures IsLeaf(Flattened(f, depth), id)
  {
    FlattenedKeys(f, depth);
    FlattenedKeys(f.kids, depth + 1);
    FlattenedKeys(f.rest, depth);
    if id in Ids(f.rest) {
      FlattenedIsLeaf(f.rest, depth, id);
    } else if id in Ids(f.kids) {
      FlattenedIsLeaf(f.kids, depth + 1, id);
    }
  }

  /** `nodes` shows the ids of `f` as `view` does. */
  ghost predicate Agrees(nodes: map<nat, Comment>, view: map<nat, Comment>, f: Forest) {
    forall id :: id in Ids(f) ==> id in nodes && id in view && nodes[id] == view[id]
  }

  lemma CappedParts(nodes: map<nat, Comment>, f: Forest, level: nat)
    requires f.Tree? && Distinct(f) && Agrees(nodes, Capped(f, level), f)
    ensures f.id in nodes && nodes[f.id] == NestedView(f.kids, level)
    ensures Agrees(nodes, Below(f.kids, level), f.kids)
    ensures Agrees(nodes, Capped(f.rest, level), f.rest)
  {
    BelowKeys(f.kids, level);
    CappedKeys(f.rest, level);
    assert f.id in Ids(f);
  }

  /** What the template shows under one node. */
  function ReadingUnder(nodes: map<nat, Comment>, node: Comment, room: nat): seq<nat> {
    Reading(nodes, if node.tail.Some? then node.tail.value else [], room) + Reading(nodes, node.children, room)
  }

  lemma TailReads(nodes: map<nat, Comment>, kids: Forest, depth: nat, room: nat)
    requires room > 0 && Agrees(nodes, Flattened(kids, depth), kids)
    ensures Reading(nodes, Preorder(kids), room) == Preorder(kids)
  {
    forall id | id in Preorder(kids)
      ensures IsLeaf(nodes, id)
    {
      PreorderIds(kids, id);
      FlattenedIsLeaf(kids, depth, id);
    }
    LeavesRead(nodes, Preorder(kids), room);
  }

  lemma {:induction false} UnderReads(nodes: map<nat, Comment>, kids: Forest, level: nat, room: nat)
    requires Distinct(kids) && level <= DEPTH_CAP && room >= DEPTH_CAP + 1 - level
    requires Agrees(nodes, Below(kids, level), kids)
    ensures ReadingUnder(nodes, NestedView(kids, level), room) == Preorder(kids)
    decreases kids, 1
  {
    if kids.Tree? {
      if level == DEPTH_CAP {
        TailReads(nodes, kids, level + 1, room);
      } else {
        CappedReads(nodes, kids, level + 1, room);
      }
    }
  }

  /** Nested children and tails, read in order, are the pre-order of the forest. */
  lemma {:induction false} CappedReads(nodes: map<nat, Comment>, f: Forest, level: nat, room: nat)
    requires Distinct(f) && level <= DEPTH_CAP && room >= DEPTH_CAP + 2 - level
    requires Agrees(nodes, Capped(f, level), f)
    ensures Reading(nodes, Roots(f), room) == Preorder(f)
    decreases f, 0
  {
    if f.Nil? {
    } else {
      CappedParts(nodes, f, level);
      CappedReads(nodes, f.rest, level, room);
      UnderReads(nodes, f.kids, level, room - 1);
      ReadFirst(nodes, f, room);
    }
  }

  lemma ReadFirst(nodes: map<nat, Comment>, f: Forest, room: nat)
    requires f.Tree? && room > 0 && f.id in nodes
    ensures Reading(nodes, Roots(f), room) ==
            [f.id] + ReadingUnder(nodes, nodes[f.id], room - 1) + Reading(nodes, Roots(f.rest), room)
  {
    assert Roots(f)[1..] == Roots(f.rest);
  }

  /** The depth of a node and what stands under it. */
  function Place(f: Forest, id: nat, depth: nat): (nat, Forest)
    requires id in Ids(f)
  {
    if id == f.id then (depth, f.kids)
    else if id in Ids(f.kids) then Place(f.kids, id, depth + 1)
    else Place(f.rest, id, depth)
  }

  lemma PlaceSteps(f: Forest, id: nat, depth: nat)
    requires f.Tree? && Distinct(f)
    ensures Distinct(f.kids) && Distinct(f.rest)
    ensures id == f.id ==> id in Ids(f) && Place(f, id, depth) == (depth, f.kids)
    ensures id in Ids(f.kids) ==> id in Ids(f) && Place(f, id, depth) == Place(f.kids, id, depth + 1)
    ensures id in Ids(f.rest) ==> id in Ids(f) && Place(f, id, depth) == Place(f.rest, id, depth)
  {
  }

  lemma {:induction false} FlatViewAt(nodes: map<nat, Comment>, f: Forest, depth: nat, id: nat)
    requires Distinct(f) && id in Ids(f) && Agrees(nodes, Flattened(f, depth), f)
    ensures id in nodes && nodes[id] == FlatView(Place(f, id, depth).1, Place(f, id, depth).0)
    ensures Place(f, id, depth).0 >= depth
  {
    FlattenedKeys(f.kids, depth + 1);
    FlattenedKeys(f.rest, depth);
    assert f.id in Ids(f);
    if id == f.id {
    } else {
      if id in Ids(f.kids) {
        FlatViewAt(nodes, f.kids, depth + 1, id);
      } else {
        FlatViewAt(nodes, f.rest, depth, id);
      }
    }
  }

  /** Down to the cap a node is nested at its true depth; below it, it is flattened with its true depth. */
  lemma {:induction false} ViewAt(nodes: map<nat, Comment>, f: Forest, level: nat, id: nat)
    requires Distinct(f) && id in Ids(f) && level <= DEPTH_CAP && Agrees(nodes, Capped(f, level), f)
    ensures var (depth, kids) := Place(f, id, level);
            id in nodes && nodes[id] == if depth > DEPTH_CAP then FlatView(kids, depth) else NestedView(kids, depth)
    decreases f
  {
    CappedParts(nodes, f, level);
    if id == f.id {
    } else {
      if id !in Ids(f.kids) {
        ViewAt(nodes, f.rest, level, id);
      } else if level == DEPTH_CAP {
        FlatViewAt(nodes, f.kids, level + 1, id);
      } else {
        ViewAt(nodes, f.kids, level + 1, id);
      }
    }
  }
}
