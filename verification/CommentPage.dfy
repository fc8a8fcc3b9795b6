/** From comment rows to the rendered page: the sorted forest under the post, and what its capped
    rendering promises about every row. */
module CommentPage {
  import opened Wrappers
  import opened Sorting
  import opened CommentForest
  import VoteLedger

  datatype SortMode = Top | New | Best | Controversial

  datatype Row = Row(parent: Option<nat>, score: int, count: int, createdAt: int)

  type Table = map<nat, Row>

  /// Ranking

  /** The number each sort reduces to; larger goes first. The Wilson bound is any function of the split. */
  function Metric(row: Row, mode: SortMode, wilson: (int, int) -> real): real {
    var (up, down) := VoteLedger.UpDownSplit(row.score, row.count);
    match mode
    case Top => row.score as real
    case New => row.createdAt as real
    case Best => wilson(up, down)
    case Controversial => (if up < down then up else down) as real
  }

  function RankOf(ranks: map<nat, real>, id: nat): real {
    if id in ranks then ranks[id] else 0.0
  }

  function Ranks(table: Table, mode: SortMode, wilson: (int, int) -> real): map<nat, real> {
    map id | id in table :: Metric(table[id], mode, wilson)
  }

  /** Larger metric first, larger id first among equals. */
  predicate Precedes(ranks: map<nat, real>, a: nat, b: nat) {
    RankOf(ranks, a) > RankOf(ranks, b) || (RankOf(ranks, a) == RankOf(ranks, b) && a >= b)
  }

  function Ahead(ranks: map<nat, real>): (nat, nat) -> bool {
    (a: nat, b: nat) => Precedes(ranks, a, b)
  }

  lemma AheadIsTotal(ranks: map<nat, real>)
    ensures TotalPreorder(Ahead(ranks)) && Antisymmetric(Ahead(ranks))
  {
  }

  /// The sorted forest of the rows

  /** The query returns every row once, in any order. */
  ghost predicate Lists(order: seq<nat>, table: Table) {
    forall x :: multiset(order)[x] == if x in table then 1 else 0
  }

  /** The direct replies to `parent`, or the roots, in row order. */
  function Replies(table: Table, order: seq<nat>, parent: Option<nat>): seq<nat> {
    if order == [] then []
    else
      var last := order[|order| - 1];
      Replies(table, order[..|order| - 1], parent)
      + if last in table && table[last].parent == parent then [last] else []
  }

  type Arrangement = seq<nat> -> seq<nat>

  /** Listing siblings by the chosen metric. */
  function Ranked(ranks: map<nat, real>, ids: seq<nat>): seq<nat> {
    AheadIsTotal(ranks);
    Sort(ids, Ahead(ranks))
  }

  function ByRank(ranks: map<nat, real>): Arrangement {
    (ids: seq<nat>) => Ranked(ranks, ids)
  }

  /** Nothing is lost, and the order things came in is forgotten. */
  ghost predicate Arranges(arrange: Arrangement) {
    && (forall ids: seq<nat> :: multiset(arrange(ids)) == multiset(ids))
    && (forall a: seq<nat>, b: seq<nat> :: multiset(a) == multiset(b) ==> arrange(a) == arrange(b))
  }

  lemma ByRankArranges(ranks: map<nat, real>)
    ensures Arranges(ByRank(ranks))
    ensures forall ids: seq<nat> :: Sorted(ByRank(ranks)(ids), Ahead(ranks))
  {
    AheadIsTotal(ranks);
    forall ids: seq<nat>
      ensures multiset(ByRank(ranks)(ids)) == multiset(ids)
    {
      SortMultiset(ids, Ahead(ranks));
    }
    forall a: seq<nat>, b: seq<nat> | multiset(a) == multiset(b)
      ensures ByRank(ranks)(a) == ByRank(ranks)(b)
    {
      SortPermutation(a, b, Ahead(ranks));
    }
  }

  function Siblings(table: Table, order: seq<nat>, arrange: Arrangement, parent: Option<nat>): seq<nat> {
    arrange(Replies(table, order, parent))
  }

  /** Every row's replies, arranged. */
  function Links(table: Table, order: seq<nat>, arrange: Arrangement): map<nat, seq<nat>> {
    map id | id in table :: Siblings(table, order, arrange, Some(id))
  }

  /** The trees under `ids`, whose ancestors are `above`. */
  function Grow(links: map<nat, seq<nat>>, ids: seq<nat>, above: set<nat>): Forest
    decreases links.Keys - above, |ids|
  {
    if ids == [] then Nil
    else if ids[0] !in links || ids[0] in above then Grow(links, ids[1..], above)
    else Tree(ids[0], GrowUnder(links, ids[0], above), Grow(links, ids[1..], above))
  }

  function GrowUnder(links: map<nat, seq<nat>>, id: nat, above: set<nat>): Forest
    requires id in links && id !in above
    decreases links.Keys - above, 0
  {
    Grow(links, links[id], above + {id})
  }

  function Thread(table: Table, order: seq<nat>, arrange: Arrangement): Forest {
    Grow(Links(table, order, arrange), Siblings(table, order, arrange, None), {})
  }

  /// Paths from a root

  /** A root and, one after the other, replies from it down to the last. */
  predicate RootPath(table: Table, p: seq<nat>) {
    && p != []
    && (forall i :: 0 <= i < |p| ==> p[i] in table)
    && (forall i :: 0 <= i < |p| ==> table[p[i]].parent == ParentOf(p[..i]))
  }

  function ParentOf(path: seq<nat>): Option<nat> {
    if path == [] then None else Some(path[|path| - 1])
  }

  function Last(p: seq<nat>): nat
    requires p != []
  {
    p[|p| - 1]
  }

  lemma PathPrefix(table: Table, p: seq<nat>, n: nat)
    requires RootPath(table, p) && 0 < n <= |p|
    ensures RootPath(table, p[..n])
  {
    assert forall i :: 0 <= i < n ==> p[..n][..i] == p[..i];
  }

  lemma PathLonger(table: Table, path: seq<nat>, id: nat)
    requires path != [] ==> RootPath(table, path)
    requires id in table && table[id].parent == ParentOf(path)
    ensures RootPath(table, path + [id])
  {
    assert forall i :: 0 <= i <= |path| ==> (path + [id])[..i] == path[..i];
  }

  /** A row has at most one path from a root. */
  lemma {:induction false} OnePath(table: Table, p: seq<nat>, q: seq<nat>)
    requires RootPath(table, p) && RootPath(table, q) && Last(p) == Last(q)
    ensures p == q
  {
    var n, m := |p| - 1, |q| - 1;
    assert table[p[n]].parent == ParentOf(p[..n]) && table[q[m]].parent == ParentOf(q[..m]);
    if n == 0 || m == 0 {
    } else {
      PathPrefix(table, p, n);
      PathPrefix(table, q, m);
      OnePath(table, p[..n], q[..m]);
    }
    assert p == p[..n] + [p[n]] && q == q[..m] + [q[m]];
  }

  lemma PathIsSimple(table: Table, p: seq<nat>, i: nat, j: nat)
    requires RootPath(table, p) && i < j < |p|
    ensures p[i] != p[j]
  {
    var a, b := p[..i + 1], p[..j + 1];
    PathPrefix(table, p, i + 1);
    PathPrefix(table, p, j + 1);
    assert |a| < |b| && Last(a) == p[i] && Last(b) == p[j];
    if Last(a) == Last(b) {
      OnePath(table, a, b);
    }
  }

  /// Growing follows the paths

  /** Each row is linked to exactly its replies, once each. */
  ghost predicate Linked(table: Table, links: map<nat, seq<nat>>) {
    && links.Keys == table.Keys
    && forall id :: id in table ==> Holds(table, Some(id), links[id])
  }

  ghost predicate Holds(table: Table, parent: Option<nat>, ids: seq<nat>) {
    Unique(ids) && forall x :: x in ids <==> x in table && table[x].parent == parent
  }

  /** `ids` are replies to the end of `path`, which comes down from a root through `above`. */
  ghost predicate Under(table: Table, path: seq<nat>, above: set<nat>, ids: seq<nat>) {
    && (path != [] ==> RootPath(table, path))
    && (forall x :: x in above <==> x in path)
    && (forall x :: x in ids ==> x in table && table[x].parent == ParentOf(path))
  }

  /** Below any row of the thread come its replies, and the row itself is not among its ancestors. */
  lemma Descend(table: Table, links: map<nat, seq<nat>>, path: seq<nat>, above: set<nat>, ids: seq<nat>)
    requires Linked(table, links) && Under(table, path, above, ids) && ids != []
    ensures ids[0] in links && ids[0] !in above && RootPath(table, path + [ids[0]])
    ensures Under(table, path + [ids[0]], above + {ids[0]}, links[ids[0]])
    ensures Under(table, path, above, ids[1..])
  {
    var id := ids[0];
    assert id in ids;
    PathLonger(table, path, id);
    if id in path {
      var i :| 0 <= i < |path| && path[i] == id;
      PathIsSimple(table, path + [id], i, |path|);
    }
    assert Holds(table, Some(id), links[id]);
  }

  /** The node dictionaries hold the links. */
  ghost predicate Carries(nodes: map<nat, Comment>, links: map<nat, seq<nat>>) {
    && nodes.Keys == links.Keys
    && forall id :: id in links ==> nodes[id] == Comment(links[id], None, 0, 0, false)
  }

  lemma {:induction false} GrowStands(nodes: map<nat, Comment>, table: Table, links: map<nat, seq<nat>>,
                                      path: seq<nat>, above: set<nat>, ids: seq<nat>)
    requires Linked(table, links) && Carries(nodes, links) && Under(table, path, above, ids)
    ensures Roots(Grow(links, ids, above)) == ids
    ensures Stands(nodes, Grow(links, ids, above))
    decreases links.Keys - above, |ids|
  {
    if ids == [] {
    } else {
      Descend(table, links, path, above, ids);
      GrowStands(nodes, table, links, path, above, ids[1..]);
      GrowStands(nodes, table, links, path + [ids[0]], above + {ids[0]}, links[ids[0]]);
    }
  }

  /** `p` goes down `path`, then into one of `ids`. */
  ghost predicate Through(table: Table, path: seq<nat>, ids: seq<nat>, p: seq<nat>) {
    RootPath(table, p) && |p| > |path| && p[..|path|] == path && p[|path|] in ids
  }

  lemma {:induction false} MemberHasPath(table: Table, links: map<nat, seq<nat>>, path: seq<nat>, above: set<nat>,
                                         ids: seq<nat>, x: nat) returns (p: seq<nat>)
    requires Linked(table, links) && Under(table, path, above, ids) && x in Ids(Grow(links, ids, above))
    ensures Through(table, path, ids, p) && Last(p) == x
    decreases links.Keys - above, |ids|
  {
    var id := ids[0];
    Descend(table, links, path, above, ids);
    if x == id {
      p := path + [id];
    } else if x in Ids(Grow(links, ids[1..], above)) {
      p := MemberHasPath(table, links, path, above, ids[1..], x);
    } else {
      p := MemberHasPath(table, links, path + [id], above + {id}, links[id], x);
      assert p[..|path|] == (path + [id])[..|path|];
    }
  }

  lemma {:induction false} PathIsMember(table: Table, links: map<nat, seq<nat>>, path: seq<nat>, above: set<nat>,
                                        ids: seq<nat>, p: seq<nat>)
    requires Linked(table, links) && Under(table, path, above, ids) && Through(table, path, ids, p)
    ensures Last(p) in Ids(Grow(links, ids, above))
    decreases links.Keys - above, |ids|
  {
    var id := ids[0];
    Descend(table, links, path, above, ids);
    if p[|path|] != id {
      PathIsMember(table, links, path, above, ids[1..], p);
    } else if |p| > |path| + 1 {
      ThroughChild(table, links, path, id, p);
      PathIsMember(table, links, path + [id], above + {id}, links[id], p);
    }
  }

  lemma ThroughChild(table: Table, links: map<nat, seq<nat>>, path: seq<nat>, id: nat, p: seq<nat>)
    requires Linked(table, links) && RootPath(table, p) && |p| > |path| + 1 && p[..|path|] == path && p[|path|] == id
    ensures id in links && Through(table, path + [id], links[id], p)
  {
    assert p[..|path| + 1] == path + [id];
    assert table[p[|path| + 1]].parent == ParentOf(p[..|path| + 1]);
    assert Holds(table, Some(id), links[id]);
  }

  lemma UniqueTail(ids: seq<nat>)
    requires Unique(ids) && ids != []
    ensures Unique(ids[1..]) && ids[0] !in ids[1..]
  {
    assert ids == [ids[0]] + ids[1..];
    assert multiset(ids) == multiset{ids[0]} + multiset(ids[1..]);
    forall x
      ensures multiset(ids[1..])[x] <= 1
    {
      assert multiset(ids)[x] <= 1;
    }
    assert multiset(ids)[ids[0]] <= 1;
  }

  lemma {:induction false} GrowDistinct(table: Table, links: map<nat, seq<nat>>, path: seq<nat>, above: set<nat>,
                                        ids: seq<nat>)
    requires Linked(table, links) && Under(table, path, above, ids) && Unique(ids)
    ensures Distinct(Grow(links, ids, above))
    decreases links.Keys - above, |ids|
  {
    if ids == [] {
    } else {
      var id := ids[0];
      Descend(table, links, path, above, ids);
      UniqueTail(ids);
      assert Holds(table, Some(id), links[id]);
      GrowDistinct(table, links, path, above, ids[1..]);
      GrowDistinct(table, links, path + [id], above + {id}, links[id]);
      Apart(table, links, path, above, ids);
    }
  }

  /** A row met again, deeper or under a later sibling, would have two paths. */
  lemma Apart(table: Table, links: map<nat, seq<nat>>, path: seq<nat>, above: set<nat>, ids: seq<nat>)
    requires Linked(table, links) && Under(table, path, above, ids) && ids != [] && ids[0] !in ids[1..]
    requires ids[0] in links && ids[0] !in above
    ensures var kids, rest := GrowUnder(links, ids[0], above), Grow(links, ids[1..], above);
            ids[0] !in Ids(kids) && ids[0] !in Ids(rest) && Ids(kids) !! Ids(rest)
  {
    var id := ids[0];
    Descend(table, links, path, above, ids);
    var kids, rest := GrowUnder(links, id, above), Grow(links, ids[1..], above);
    if id in Ids(kids) {
      var p := MemberHasPath(table, links, path + [id], above + {id}, links[id], id);
      OnePath(table, p, path + [id]);
    }
    if id in Ids(rest) {
      var p := MemberHasPath(table, links, path, above, ids[1..], id);
      OnePath(table, p, path + [id]);
    }
    if x :| x in Ids(kids) && x in Ids(rest) {
      var p := MemberHasPath(table, links, path + [id], above + {id}, links[id], x);
      var q := MemberHasPath(table, links, path, above, ids[1..], x);
      assert p[|path|] == p[..|path| + 1][|path|] == id;
      OnePath(table, p, q);
    }
  }

  /// The rows as they are linked

  lemma {:induction false} RepliesCount(table: Table, order: seq<nat>, parent: Option<nat>, x: nat)
    ensures multiset(Replies(table, order, parent))[x]
            == if x in table && table[x].parent == parent then multiset(order)[x] else 0
  {
    if order == [] {
    } else {
      RepliesCount(table, order[..|order| - 1], parent, x);
      assert order == order[..|order| - 1] + [order[|order| - 1]];
    }
  }

  lemma SiblingsHold(table: Table, order: seq<nat>, arrange: Arrangement, parent: Option<nat>)
    requires Lists(order, table) && Arranges(arrange)
    ensures Holds(table, parent, Siblings(table, order, arrange, parent))
  {
    var replies := Replies(table, order, parent);
    var ids := arrange(replies);
    assert multiset(ids) == multiset(replies);
    forall x
      ensures multiset(ids)[x] <= 1 && (x in ids <==> x in table && table[x].parent == parent)
    {
      RepliesCount(table, order, parent, x);
      assert x in ids <==> multiset(ids)[x] > 0;
    }
  }

  lemma LinkHolds(table: Table, order: seq<nat>, arrange: Arrangement, links: map<nat, seq<nat>>, id: nat)
    requires Lists(order, table) && Arranges(arrange) && links == Links(table, order, arrange) && id in table
    ensures id in links && Holds(table, Some(id), links[id])
  {
    SiblingsHold(table, order, arrange, Some(id));
  }

  lemma LinksHold(table: Table, order: seq<nat>, arrange: Arrangement) returns (links: map<nat, seq<nat>>)
    requires Lists(order, table) && Arranges(arrange)
    ensures links == Links(table, order, arrange) && Linked(table, links)
  {
    links := Links(table, order, arrange);
    forall id | id in table
      ensures id in links && Holds(table, Some(id), links[id])
    {
      LinkHolds(table, order, arrange, links, id);
    }
  }

  lemma RootsUnder(table: Table, ids: seq<nat>)
    requires Holds(table, None, ids)
    ensures Under(table, [], {}, ids)
  {
  }

  lemma SiblingsIgnoreOrder(table: Table, a: seq<nat>, b: seq<nat>, arrange: Arrangement, parent: Option<nat>)
    requires Lists(a, table) && Lists(b, table) && Arranges(arrange)
    ensures Siblings(table, a, arrange, parent) == Siblings(table, b, arrange, parent)
  {
    forall x
      ensures multiset(Replies(table, a, parent))[x] == multiset(Replies(table, b, parent))[x]
    {
      RepliesCount(table, a, parent, x);
      RepliesCount(table, b, parent, x);
    }
    assert multiset(Replies(table, a, parent)) == multiset(Replies(table, b, parent));
  }

  /// The page as it is built

  /** After the rows in `order`: every node holds its replies so far, in row order. */
  ghost predicate Attached(nodes: map<nat, Comment>, table: Table, order: seq<nat>) {
    && nodes.Keys == table.Keys
    && forall id :: id in table ==> nodes[id] == Comment(Replies(table, order, Some(id)), None, 0, 0, false)
  }

  lemma RepliesSnoc(table: Table, order: seq<nat>, id: nat, parent: Option<nat>)
    requires id in table
    ensures Replies(table, order + [id], parent)
            == if table[id].parent == parent then Replies(table, order, parent) + [id]
               else Replies(table, order, parent)
  {
    assert (order + [id])[..|order|] == order;
  }

  /** The row hung under its parent, if it has one that exists. */
  function Hung(nodes: map<nat, Comment>, id: nat, parent: Option<nat>): map<nat, Comment> {
    if parent.None? || parent.value !in nodes then nodes
    else nodes[parent.value := nodes[parent.value].(children := nodes[parent.value].children + [id])]
  }

  lemma HangKeeps(nodes: map<nat, Comment>, table: Table, done: seq<nat>, id: nat)
    requires id in table && Attached(nodes, table, done)
    ensures Attached(Hung(nodes, id, table[id].parent), table, done + [id])
  {
    forall q | q in table
      ensures Hung(nodes, id, table[id].parent)[q] == Comment(Replies(table, done + [id], Some(q)), None, 0, 0, false)
    {
      RepliesSnoc(table, done, id, Some(q));
    }
  }

  lemma ListedOnce(table: Table, order: seq<nat>, i: nat)
    requires Lists(order, table) && i < |order|
    ensures order[i] in table && order[i] !in order[..i] && order[..i + 1] == order[..i] + [order[i]]
  {
    assert order == order[..i] + [order[i]] + order[i + 1..];
    assert multiset(order) == multiset(order[..i]) + multiset{order[i]} + multiset(order[i + 1..]);
    assert multiset(order)[order[i]] >= 1;
  }

  /** Hangs every row under its parent in row order; rows without one are the roots. */
  method Attach(page: Page, table: Table, order: seq<nat>) returns (roots: seq<nat>)
    requires Lists(order, table)
    modifies page
    ensures Attached(page.nodes, table, order) && roots == Replies(table, order, None)
  {
    page.nodes := map id | id in table :: Comment([], None, 0, 0, false);
    roots := [];
    for i := 0 to |order|
      invariant Attached(page.nodes, table, order[..i]) && roots == Replies(table, order[..i], None)
    {
      var id := order[i];
      ListedOnce(table, order, i);
      HangKeeps(page.nodes, table, order[..i], id);
      RepliesSnoc(table, order[..i], id, None);
      var parent := table[id].parent;
      if parent.None? {
        roots := roots + [id];
      } else if parent.value in page.nodes {
        var node := page.nodes[parent.value];
        page.nodes := page.nodes[parent.value := node.(children := node.children + [id])];
      }
    }
    assert order[..|order|] == order;
  }

  /** The nodes once those in `done` are arranged. */
  ghost predicate PartlyArranged(nodes: map<nat, Comment>, before: map<nat, Comment>, arrange: Arrangement,
                                 done: seq<nat>) {
    && nodes.Keys == before.Keys
    && forall id :: id in before ==>
         nodes[id] == if id in done then before[id].(children := arrange(before[id].children)) else before[id]
  }

  method SortChildren(page: Page, table: Table, order: seq<nat>, arrange: Arrangement)
    requires Lists(order, table) && page.nodes.Keys == table.Keys
    modifies page
    ensures PartlyArranged(page.nodes, old(page.nodes), arrange, order)
  {
    for i := 0 to |order|
      invariant PartlyArranged(page.nodes, old(page.nodes), arrange, order[..i])
    {
      ListedOnce(table, order, i);
      var id := order[i];
      var node := page.nodes[id];
      page.nodes := page.nodes[id := node.(children := arrange(node.children))];
    }
    assert order[..|order|] == order;
  }

  /** The node dictionaries before capping. */
  function Fresh(links: map<nat, seq<nat>>): map<nat, Comment> {
    map id | id in links :: Comment(links[id], None, 0, 0, false)
  }

  lemma ArrangedIsFresh(nodes: map<nat, Comment>, before: map<nat, Comment>, table: Table, order: seq<nat>,
                        arrange: Arrangement)
    requires Lists(order, table) && Attached(before, table, order) && PartlyArranged(nodes, before, arrange, order)
    ensures nodes == Fresh(Links(table, order, arrange))
  {
    forall id | id in table
      ensures id in order
    {
      assert multiset(order)[id] == 1;
    }
  }

  method BuildCommentTree(page: Page, table: Table, order: seq<nat>, arrange: Arrangement) returns (roots: seq<nat>)
    requires Lists(order, table)
    modifies page
    ensures page.nodes == Fresh(Links(table, order, arrange))
    ensures roots == Siblings(table, order, arrange, None)
  {
    roots := Attach(page, table, order);
    ghost var before := page.nodes;
    SortChildren(page, table, order, arrange);
    ArrangedIsFresh(page.nodes, before, table, order, arrange);
    roots := arrange(roots);
  }

  lemma ThreadStands(table: Table, order: seq<nat>, arrange: Arrangement)
    requires Lists(order, table) && Arranges(arrange)
    ensures var f := Thread(table, order, arrange);
            && Roots(f) == Siblings(table, order, arrange, None)
            && Stands(Fresh(Links(table, order, arrange)), f) && Distinct(f)
  {
    var links := LinksHold(table, order, arrange);
    var ids := Siblings(table, order, arrange, None);
    SiblingsHold(table, order, arrange, None);
    RootsUnder(table, ids);
    GrowStands(Fresh(links), table, links, [], {}, ids);
    GrowDistinct(table, links, [], {}, ids);
  }

  /// The rendered page and what it promises

  /** Rows no root leads to keep their plain node, which nothing shows. */
  function Rendered(table: Table, order: seq<nat>, arrange: Arrangement): map<nat, Comment> {
    Fresh(Links(table, order, arrange)) + Capped(Thread(table, order, arrange), 0)
  }

  /** Builds the tree, then caps it in place. */
  method RenderComments(page: Page, table: Table, order: seq<nat>, mode: SortMode, wilson: (int, int) -> real)
    returns (roots: seq<nat>)
    requires Lists(order, table)
    modifies page
    ensures roots == Siblings(table, order, ByRank(Ranks(table, mode, wilson)), None)
    ensures page.nodes == Rendered(table, order, ByRank(Ranks(table, mode, wilson)))
  {
    var ranks := Ranks(table, mode, wilson);
    ByRankArranges(ranks);
    roots := BuildAndCap(page, table, order, ByRank(ranks));
  }

  method BuildAndCap(page: Page, table: Table, order: seq<nat>, arrange: Arrangement) returns (roots: seq<nat>)
    requires Lists(order, table) && Arranges(arrange)
    modifies page
    ensures roots == Siblings(table, order, arrange, None)
    ensures page.nodes == Rendered(table, order, arrange)
  {
    roots := BuildCommentTree(page, table, order, arrange);
    ThreadStands(table, order, arrange);
    page.CapCommentDepth(roots, 0, Thread(table, order, arrange));
  }

  lemma ThreadIsShown(table: Table, order: seq<nat>, arrange: Arrangement) returns (f: Forest)
    requires Lists(order, table) && Arranges(arrange)
    ensures f == Thread(table, order, arrange) && Distinct(f) && Roots(f) == Siblings(table, order, arrange, None)
    ensures Agrees(Rendered(table, order, arrange), Capped(f, 0), f)
  {
    f := Thread(table, order, arrange);
    ThreadStands(table, order, arrange);
    CappedKeys(f, 0);
  }

  /** Reading nested children and tails in order gives the pre-order of the sorted forest. */
  lemma ReadsInOrder(table: Table, order: seq<nat>, arrange: Arrangement)
    requires Lists(order, table) && Arranges(arrange)
    ensures Reading(Rendered(table, order, arrange), Siblings(table, order, arrange, None), 10)
            == Preorder(Thread(table, order, arrange))
  {
    var f := ThreadIsShown(table, order, arrange);
    CappedReads(Rendered(table, order, arrange), f, 0, 10);
  }

  ghost predicate Reachable(table: Table, id: nat) {
    exists p :: RootPath(table, p) && Last(p) == id
  }

  /** The thread holds the rows that a root leads to. */
  lemma ThreadHoldsReachable(table: Table, order: seq<nat>, arrange: Arrangement, id: nat)
    requires Lists(order, table) && Arranges(arrange)
    ensures id in Ids(Thread(table, order, arrange)) <==> Reachable(table, id)
  {
    var links := LinksHold(table, order, arrange);
    var ids := Siblings(table, order, arrange, None);
    SiblingsHold(table, order, arrange, None);
    RootsUnder(table, ids);
    if id in Ids(Grow(links, ids, {})) {
      var p := MemberHasPath(table, links, [], {}, ids, id);
      assert Last(p) == id;
    }
    if Reachable(table, id) {
      var p :| RootPath(table, p) && Last(p) == id;
      StartsAtRoot(table, ids, p);
      PathIsMember(table, links, [], {}, ids, p);
    }
  }

  lemma OnceIfThere(f: Forest, id: nat)
    requires Distinct(f)
    ensures multiset(Preorder(f))[id] == if id in Ids(f) then 1 else 0
  {
    PreorderUnique(f);
    PreorderIds(f, id);
    assert multiset(Preorder(f))[id] <= 1;
    assert multiset(Preorder(f))[id] > 0 <==> id in Preorder(f);
  }

  /** The reading shows every row a root leads to exactly once, and no other row. */
  lemma EachRowOnce(table: Table, order: seq<nat>, arrange: Arrangement, id: nat)
    requires Lists(order, table) && Arranges(arrange)
    ensures multiset(Preorder(Thread(table, order, arrange)))[id] == if Reachable(table, id) then 1 else 0
  {
    var f := ThreadIsShown(table, order, arrange);
    ThreadHoldsReachable(table, order, arrange, id);
    OnceIfThere(f, id);
  }

  lemma StartsAtRoot(table: Table, ids: seq<nat>, p: seq<nat>)
    requires Holds(table, None, ids) && RootPath(table, p)
    ensures Through(table, [], ids, p)
  {
    assert table[p[0]].parent == ParentOf(p[..0]);
  }

  /** A row stands at the end of its path, its replies under it. */
  lemma {:induction false} PlaceOnPath(table: Table, links: map<nat, seq<nat>>, path: seq<nat>, above: set<nat>,
                                       ids: seq<nat>, p: seq<nat>) returns (beyond: set<nat>)
    requires Linked(table, links) && Under(table, path, above, ids) && Through(table, path, ids, p)
    requires Distinct(Grow(links, ids, above))
    ensures Last(p) in Ids(Grow(links, ids, above)) && Last(p) in links && Under(table, p, beyond, links[Last(p)])
    ensures Place(Grow(links, ids, above), Last(p), |path|) == (|p| - 1, Grow(links, links[Last(p)], beyond))
    decreases links.Keys - above, |ids|
  {
    var id := ids[0];
    Descend(table, links, path, above, ids);
    PlaceSteps(Tree(id, GrowUnder(links, id, above), Grow(links, ids[1..], above)), Last(p), |path|);
    if p[|path|] != id {
      beyond := PlaceOnPath(table, links, path, above, ids[1..], p);
    } else if |p| > |path| + 1 {
      ThroughChild(table, links, path, id, p);
      beyond := PlaceOnPath(table, links, path + [id], above + {id}, links[id], p);
    } else {
      beyond := above + {id};
      assert p == path + [id];
    }
  }

  /** `q` leads from a root through the whole of `p` and on to `x`. */
  ghost predicate Beyond(table: Table, p: seq<nat>, x: nat) {
    exists q :: RootPath(table, q) && |q| > |p| && q[..|p|] == p && Last(q) == x
  }

  ghost function Descendants(table: Table, p: seq<nat>): set<nat> {
    set x | x in table && Beyond(table, p, x)
  }

  lemma IdsAreDescendants(table: Table, links: map<nat, seq<nat>>, p: seq<nat>, beyond: set<nat>)
    requires Linked(table, links) && RootPath(table, p) && Under(table, p, beyond, links[Last(p)])
    ensures |Descendants(table, p)| == Size(Grow(links, links[Last(p)], beyond))
  {
    var id := Last(p);
    var kids := Grow(links, links[id], beyond);
    assert Holds(table, Some(id), links[id]);
    forall x
      ensures x in Ids(kids) <==> x in Descendants(table, p)
    {
      if x in Ids(kids) {
        var q := MemberHasPath(table, links, p, beyond, links[id], x);
        assert Beyond(table, p, x);
      }
      if x in table && Beyond(table, p, x) {
        var q :| RootPath(table, q) && |q| > |p| && q[..|p|] == p && Last(q) == x;
        assert table[q[|p|]].parent == ParentOf(q[..|p|]);
        PathIsMember(table, links, p, beyond, links[id], q);
      }
    }
    assert Ids(kids) == Descendants(table, p);
    GrowDistinct(table, links, p, beyond, links[id]);
    PreorderUnique(kids);
  }

  /** Row `x` stands before row `y`: by the score, the time, the Wilson bound of the up and down votes, or the
      smaller number of the two, larger first, and with the larger id among equals. */
  predicate StandsBefore(a: Row, x: nat, b: Row, y: nat, mode: SortMode, wilson: (int, int) -> real) {
    var upA, upB := (a.count + a.score) / 2, (b.count + b.score) / 2;
    var downA, downB := a.count - upA, b.count - upB;
    match mode
    case Top => a.score > b.score || (a.score == b.score && x > y)
    case New => a.createdAt > b.createdAt || (a.createdAt == b.createdAt && x > y)
    case Best => wilson(upA, downA) > wilson(upB, downB) || (wilson(upA, downA) == wilson(upB, downB) && x > y)
    case Controversial => Lesser(a) > Lesser(b) || (Lesser(a) == Lesser(b) && x > y)
  }

  lemma AheadMeans(table: Table, mode: SortMode, wilson: (int, int) -> real, x: nat, y: nat)
    requires x in table && y in table && x != y && Precedes(Ranks(table, mode, wilson), x, y)
    ensures StandsBefore(table[x], x, table[y], y, mode, wilson)
  {
    var a, b := table[x], table[y];
    var m, n := Metric(a, mode, wilson), Metric(b, mode, wilson);
    assert m > n || (m == n && x > y);
    match mode
    case Top => assert m == a.score as real && n == b.score as real;
    case New => assert m == a.createdAt as real && n == b.createdAt as real;
    case Best =>
    case Controversial =>
      assert m == Lesser(a) as real && n == Lesser(b) as real;
  }

  /** The smaller number of up and down votes. */
  function Lesser(row: Row): int {
    var up := (row.count + row.score) / 2;
    if up <= row.count - up then up else row.count - up
  }

  /** Siblings stand in the order of the chosen sort. */
  lemma SiblingsRanked(table: Table, order: seq<nat>, mode: SortMode, wilson: (int, int) -> real, parent: Option<nat>,
                       i: nat, j: nat)
    requires Lists(order, table) && i < j < |Siblings(table, order, ByRank(Ranks(table, mode, wilson)), parent)|
    ensures var s := Siblings(table, order, ByRank(Ranks(table, mode, wilson)), parent);
            && s[i] in table && s[j] in table && table[s[i]].parent == table[s[j]].parent == parent
            && StandsBefore(table[s[i]], s[i], table[s[j]], s[j], mode, wilson)
  {
    var ranks := Ranks(table, mode, wilson);
    ByRankArranges(ranks);
    var ids := Siblings(table, order, ByRank(ranks), parent);
    SiblingsHold(table, order, ByRank(ranks), parent);
    assert ids[i] in ids && ids[j] in ids;
    assert Ahead(ranks)(ids[i], ids[j]);
    DistinctAt(ids, i, j);
    AheadMeans(table, mode, wilson, ids[i], ids[j]);
  }

  lemma DistinctAt(s: seq<nat>, i: nat, j: nat)
    requires i < j < |s| && Unique(s)
    ensures s[i] != s[j]
  {
    assert s == s[..i] + [s[i]] + s[i + 1..j] + [s[j]] + s[j + 1..];
    assert multiset(s)
           == multiset(s[..i]) + multiset{s[i]} + multiset(s[i + 1..j]) + multiset{s[j]} + multiset(s[j + 1..]);
    assert s[i] == s[j] ==> multiset(s)[s[i]] >= 2;
  }

  /** How the row at the end of a path is shown: with its true depth and the size of its full subtree;
      nested down to the cap, flattened below it; at the cap its subtree is its tail. */
  lemma RowShown(table: Table, order: seq<nat>, arrange: Arrangement, p: seq<nat>)
    requires Lists(order, table) && Arranges(arrange) && RootPath(table, p)
    ensures Last(p) in Rendered(table, order, arrange)
    ensures var shown := Rendered(table, order, arrange)[Last(p)];
            var replies := Siblings(table, order, arrange, Some(Last(p)));
            && shown.level == |p| - 1
            && shown.descendants == |Descendants(table, p)|
            && (shown.flat <==> |p| - 1 > 8)
            && (|p| - 1 < 8 ==> shown.children == replies && shown.tail == None)
            && (|p| - 1 >= 8 ==> shown.children == [])
            && (shown.tail.Some? <==> |p| - 1 == 8 && replies != [])
  {
    var f := ThreadIsShown(table, order, arrange);
    var links := LinksHold(table, order, arrange);
    var ids, id := Siblings(table, order, arrange, None), Last(p);
    SiblingsHold(table, order, arrange, None);
    RootsUnder(table, ids);
    StartsAtRoot(table, ids, p);
    var beyond := PlaceOnPath(table, links, [], {}, ids, p);
    ViewAt(Rendered(table, order, arrange), f, 0, id);
    IdsAreDescendants(table, links, p, beyond);
    GrowStands(Fresh(links), table, links, p, beyond, links[id]);
  }

  lemma LinksSame(table: Table, a: seq<nat>, b: seq<nat>, arrange: Arrangement)
    requires forall id :: id in table ==> Siblings(table, a, arrange, Some(id)) == Siblings(table, b, arrange, Some(id))
    ensures Links(table, a, arrange) == Links(table, b, arrange)
  {
  }

  lemma LinksIgnoreOrder(table: Table, a: seq<nat>, b: seq<nat>, arrange: Arrangement)
    requires Lists(a, table) && Lists(b, table) && Arranges(arrange)
    ensures Links(table, a, arrange) == Links(table, b, arrange)
  {
    forall id | id in table
      ensures Siblings(table, a, arrange, Some(id)) == Siblings(table, b, arrange, Some(id))
    {
      SiblingsIgnoreOrder(table, a, b, arrange, Some(id));
    }
    LinksSame(table, a, b, arrange);
  }

  /** The order the rows come in changes nothing. */
  lemma RowOrderIrrelevant(table: Table, a: seq<nat>, b: seq<nat>, arrange: Arrangement)
    requires Lists(a, table) && Lists(b, table) && Arranges(arrange)
    ensures Siblings(table, a, arrange, None) == Siblings(table, b, arrange, None)
    ensures Rendered(table, a, arrange) == Rendered(table, b, arrange)
  {
    SiblingsIgnoreOrder(table, a, b, arrange, None);
    LinksIgnoreOrder(table, a, b, arrange);
  }
}
