/** The layered layout of a node set: columns by upstream depth, rows by order, cycles broken at depth zero. */
module Layout {
  import opened Collections

  const COLUMN_WIDTH := 3.0
  const ROW_HEIGHT := 2.0

  type Edges = map<string, seq<string>>

  /** The upstream nodes of `p` inside the set, in their order. */
  function Upstream(edges: Edges, members: set<string>, p: string): (up: seq<string>)
    ensures forall u :: u in up <==> p in edges && u in edges[p] && u in members
  {
    if p in edges then Within(edges[p], members) else []
  }

  function Within(names: seq<string>, members: set<string>): (w: seq<string>)
    ensures forall u :: u in w <==> u in names && u in members
  {
    if names == [] then [] else
    var front, last := Within(names[..|names| - 1], members), names[|names| - 1];
    assert names == names[..|names| - 1] + [last];
    if last in members then front + [last] else front
  }

  // ---- the specification -------------------------------------------------

  /** Going upstream from `s[0]`, one edge after the other. */
  predicate IsChain(edges: Edges, members: set<string>, s: seq<string>) {
    s != [] && forall k :: 0 <= k < |s| - 1 ==> s[k + 1] in Upstream(edges, members, s[k])
  }

  /** The longest way upstream from `p` takes `d` edges. */
  ghost predicate IsLongest(edges: Edges, members: set<string>, p: string, d: nat) {
    && (exists s :: IsChain(edges, members, s) && s[0] == p && |s| == d + 1)
    && (forall s :: IsChain(edges, members, s) && s[0] == p ==> |s| <= d + 1)
  }

  predicate Ranked(edges: Edges, members: set<string>, rank: map<string, nat>) {
    forall p, u :: p in members && u in Upstream(edges, members, p) ==> RankOf(rank, u) < RankOf(rank, p)
  }

  function RankOf(rank: map<string, nat>, p: string): nat {
    if p in rank then rank[p] else 0
  }

  ghost predicate Acyclic(edges: Edges, members: set<string>) {
    exists rank :: Ranked(edges, members, rank)
  }

  lemma ChainStart(edges: Edges, members: set<string>, s: seq<string>)
    requires IsChain(edges, members, s)
    ensures |s| > 1 ==> s[1] in Upstream(edges, members, s[0])
  {
    assert |s| > 1 ==> s[0 + 1] in Upstream(edges, members, s[0]);
  }

  lemma NoUpstream(edges: Edges, members: set<string>, p: string)
    requires Upstream(edges, members, p) == []
    ensures IsLongest(edges, members, p, 0)
  {
    assert IsChain(edges, members, [p]) && [p][0] == p;
    forall s | IsChain(edges, members, s) && s[0] == p ensures |s| <= 1 {
      ChainStart(edges, members, s);
    }
  }

  lemma ChainTail(edges: Edges, members: set<string>, s: seq<string>)
    requires IsChain(edges, members, s) && |s| > 1
    ensures IsChain(edges, members, s[1..]) && s[1..][0] in Upstream(edges, members, s[0])
  {
    assert s[0 + 1] in Upstream(edges, members, s[0]);
    forall k | 0 <= k < |s[1..]| - 1 ensures s[1..][k + 1] in Upstream(edges, members, s[1..][k]) {
      var m := k + 1;
      assert s[m + 1] in Upstream(edges, members, s[m]);
    }
  }

  lemma ChainFront(edges: Edges, members: set<string>, p: string, s: seq<string>)
    requires IsChain(edges, members, s) && s[0] in Upstream(edges, members, p)
    ensures IsChain(edges, members, [p] + s)
  {
    var t := [p] + s;
    forall k | 0 <= k < |t| - 1 ensures t[k + 1] in Upstream(edges, members, t[k]) {
      if k > 0 {
        var m := k - 1;
        assert s[m + 1] in Upstream(edges, members, s[m]);
      }
    }
  }

  /** One more than the longest way of any upstream node. */
  lemma LongestStep(edges: Edges, members: set<string>, p: string, up: seq<string>, ds: seq<nat>, j: nat)
    requires up == Upstream(edges, members, p) && |ds| == |up| && j < |up|
    requires forall i :: 0 <= i < |up| ==> IsLongest(edges, members, up[i], ds[i]) && ds[i] <= ds[j]
    ensures IsLongest(edges, members, p, ds[j] + 1)
  {
    var s :| IsChain(edges, members, s) && s[0] == up[j] && |s| == ds[j] + 1;
    ChainFront(edges, members, p, s);
    assert ([p] + s)[0] == p && |[p] + s| == ds[j] + 2;
    forall t | IsChain(edges, members, t) && t[0] == p ensures |t| <= ds[j] + 2 {
      if |t| > 1 {
        ChainTail(edges, members, t);
        var i :| 0 <= i < |up| && up[i] == t[1..][0];
        assert |t[1..]| <= ds[i] + 1;
      }
    }
  }

  /** An edge of an acyclic layout leads to a strictly longer way. */
  lemma EdgeLonger(edges: Edges, members: set<string>, p: string, u: string, d: nat, e: nat)
    requires u in Upstream(edges, members, p)
    requires IsLongest(edges, members, p, d) && IsLongest(edges, members, u, e)
    ensures e < d
  {
    var s :| IsChain(edges, members, s) && s[0] == u && |s| == e + 1;
    ChainFront(edges, members, p, s);
    assert ([p] + s)[0] == p;
  }

  // ---- the algorithm -----------------------------------------------------

  /** Every depth on record is the longest way upstream. */
  ghost predicate Exact(edges: Edges, members: set<string>, depths: map<string, nat>) {
    forall q :: q in depths ==> IsLongest(edges, members, q, depths[q])
  }

  lemma ExactNext(edges: Edges, members: set<string>, depths: map<string, nat>, p: string, d: nat)
    requires Exact(edges, members, depths) && IsLongest(edges, members, p, d)
    ensures Exact(edges, members, depths[p := d])
  {
  }

  lemma ExactAt(edges: Edges, members: set<string>, depths: map<string, nat>, p: string)
    requires Exact(edges, members, depths) && p in depths
    ensures IsLongest(edges, members, p, depths[p])
  {
  }

  /** The node ranks below everything being visited. */
  predicate BelowAll(rank: map<string, nat>, visiting: set<string>, p: string) {
    forall v :: v in visiting ==> RankOf(rank, p) < RankOf(rank, v)
  }

  lemma StillBelow(edges: Edges, members: set<string>, rank: map<string, nat>, visiting: set<string>, p: string, u: string)
    requires Ranked(edges, members, rank) && p in members && u in Upstream(edges, members, p)
    requires BelowAll(rank, visiting, p)
    ensures BelowAll(rank, visiting + {p}, u) && p !in visiting
  {
    assert RankOf(rank, u) < RankOf(rank, p);
  }

  lemma NotVisited(rank: map<string, nat>, visiting: set<string>, p: string)
    requires BelowAll(rank, visiting, p)
    ensures p !in visiting
  {
  }

  predicate Extends(before: map<string, nat>, after: map<string, nat>) {
    forall q :: q in before ==> q in after && after[q] == before[q]
  }

  /** The depth so far: one more than the greatest depth upstream, or zero when there is none. */
  predicate Highest(ds: seq<nat>, d: nat, top: nat) {
    && (ds == [] ==> d == 0)
    && (ds != [] ==> top < |ds| && d == ds[top] + 1)
    && (forall j :: 0 <= j < |ds| ==> ds[j] + 1 <= d)
  }

  lemma HighestNext(ds: seq<nat>, d: nat, top: nat, below: nat)
    requires Highest(ds, d, top)
    ensures ds == [] || below + 1 > d ==> Highest(ds + [below], below + 1, |ds|)
    ensures ds != [] && below + 1 <= d ==> Highest(ds + [below], d, top)
  {
  }

  lemma HighestNone()
    ensures Highest([], 0, 0)
  {
  }

  /** The depths found so far are exact. */
  ghost predicate Longests(edges: Edges, members: set<string>, up: seq<string>, ds: seq<nat>) {
    |ds| <= |up| && forall j :: 0 <= j < |ds| ==> IsLongest(edges, members, up[j], ds[j])
  }

  lemma LongestsNext(edges: Edges, members: set<string>, up: seq<string>, ds: seq<nat>, below: nat)
    requires Longests(edges, members, up, ds) && |ds| < |up| && IsLongest(edges, members, up[|ds|], below)
    ensures Longests(edges, members, up, ds + [below])
  {
  }

  lemma LongestOf(edges: Edges, members: set<string>, p: string, up: seq<string>, ds: seq<nat>, d: nat, top: nat)
    requires up == Upstream(edges, members, p) && |ds| == |up|
    requires Highest(ds, d, top) && Longests(edges, members, up, ds)
    ensures IsLongest(edges, members, p, d)
  {
    hide IsLongest;
    if up == [] { NoUpstream(edges, members, p); } else { LongestStep(edges, members, p, up, ds, top); }
  }

  lemma LongestsNone(edges: Edges, members: set<string>, up: seq<string>)
    ensures Longests(edges, members, up, [])
  {
  }

  lemma ExtendsAcross(a: map<string, nat>, b: map<string, nat>, c: map<string, nat>)
    requires Extends(a, b) && Extends(b, c)
    ensures Extends(a, c)
  {
  }

  lemma ExtendsWith(a: map<string, nat>, b: map<string, nat>, p: string, d: nat)
    requires Extends(a, b) && p !in a
    ensures Extends(a, b[p := d])
  {
  }

  lemma ExtendsSelf(a: map<string, nat>)
    ensures Extends(a, a)
  {
  }

  class DepthTable {
    const edges: Edges
    const members: set<string>
    var depths: map<string, nat>
    var visiting: set<string>

    constructor (edges: Edges, members: set<string>)
      ensures this.edges == edges && this.members == members && depths == map[] && visiting == {}
    {
      this.edges, this.members := edges, members;
      depths, visiting := map[], {};
    }

    predicate Valid()
      reads this
    {
      visiting <= members && depths.Keys <= members
    }

    /** The depth of one node. Terminates on every graph: a node already being visited counts as depth zero.
        Under a ranking, with only higher ranked nodes being visited, the depth is exact. */
    method Depth(p: string, ghost rank: map<string, nat>) returns (d: nat)
      requires Valid() && p in members
      modifies this
      ensures Valid() && visiting == old(visiting) && Extends(old(depths), depths)
      ensures p !in visiting ==> p in depths && depths[p] == d
      ensures Ranked(edges, members, rank) && Exact(edges, members, old(depths)) && BelowAll(rank, visiting, p) ==>
                Exact(edges, members, depths) && IsLongest(edges, members, p, d)
      decreases |members - visiting|
    {
      hide IsLongest, Ranked, Upstream, Exact, BelowAll, Extends, Highest, Longests;
      ExtendsSelf(depths);
      ghost var ranked := Ranked(edges, members, rank) && Exact(edges, members, depths) && BelowAll(rank, visiting, p);
      if p in depths {
        if ranked { ExactAt(edges, members, depths, p); }
        return depths[p];
      }
      if p in visiting {
        if ranked { NotVisited(rank, visiting, p); }
        return 0;
      }
      SubsetCount(members - (visiting + {p}), members - visiting);
      ghost var outer := visiting;
      visiting := visiting + {p};
      var up := Upstream(edges, members, p);
      d := 0;
      ghost var ds: seq<nat>, top: nat := [], 0;
      HighestNone();
      LongestsNone(edges, members, up);
      for i := 0 to |up|
        invariant Valid() && visiting == outer + {p} && Extends(old(depths), depths)
        invariant |ds| == i && Highest(ds, d, top)
        invariant ranked ==> Exact(edges, members, depths) && Longests(edges, members, up, ds)
      {
        assert up[i] in up;
        if ranked { StillBelow(edges, members, rank, outer, p, up[i]); }
        ghost var before := depths;
        var below := Depth(up[i], rank);
        ExtendsAcross(old(depths), before, depths);
        HighestNext(ds, d, top, below);
        if ranked { LongestsNext(edges, members, up, ds, below); }
        ds := ds + [below];
        if i == 0 || below + 1 > d {
          d, top := below + 1, i;
        }
      }
      visiting := visiting - {p};
      if ranked {
        LongestOf(edges, members, p, up, ds, d, top);
        ExactNext(edges, members, depths, p, d);
      }
      ExtendsWith(old(depths), depths, p, d);
      depths := depths[p := d];
    }
  }

  // ---- columns and positions ---------------------------------------------

  type Columns = map<nat, seq<string>>

  type Position = (real, real)

  /** The nodes so far, each in the column of its depth. */
  predicate Sorted(columns: Columns, depths: map<string, nat>, placed: set<string>) {
    && (forall c, p :: c in columns && p in columns[c] ==> p in placed && p in depths && depths[p] == c)
    && (forall p :: p in placed ==> p in depths && depths[p] in columns && p in columns[depths[p]])
  }

  function Added(columns: Columns, d: nat, p: string): Columns {
    columns[d := (if d in columns then columns[d] else []) + [p]]
  }

  lemma SortedNext(columns: Columns, depths: map<string, nat>, depths': map<string, nat>, placed: set<string>, p: string)
    requires Sorted(columns, depths, placed) && p in depths'
    requires Extends(depths, depths')
    ensures Sorted(Added(columns, depths'[p], p), depths', placed + {p})
  {
    var d := depths'[p];
    assert Added(columns, d, p)[d][|Added(columns, d, p)[d]| - 1] == p;
    forall q | q in placed + {p} ensures q in Added(columns, d, p)[depths'[q]] {
      if q in placed { assert q in columns[depths'[q]]; }
    }
  }

  /** The column and the row of a node, or what the anchor makes of them. */
  function PlaceOf(anchor: Position, column: nat, row: nat): Position {
    (anchor.0 + column as real * COLUMN_WIDTH, anchor.1 - row as real * ROW_HEIGHT)
  }

  lemma PlaceUnique(anchor: Position, c: nat, r: nat, c': nat, r': nat)
    ensures PlaceOf(anchor, c, r) == PlaceOf(anchor, c', r') <==> c == c' && r == r'
  {
  }

  /** The last row of a column in which a node is listed. */
  predicate LastRow(column: seq<string>, r: nat, p: string) {
    r < |column| && column[r] == p && forall k :: r < k < |column| ==> column[k] != p
  }

  /** Every placed node sits in its own column, in the last row where the column lists it. */
  ghost predicate Placed(positions: map<string, Position>, columns: Columns, anchor: Position, done: set<nat>) {
    && (forall c, p :: c in done && c in columns && p in columns[c] ==> p in positions)
    && (forall p :: p in positions ==>
          exists c, r :: c in done && c in columns && LastRow(columns[c], r, p) && positions[p] == PlaceOf(anchor, c, r))
  }

  lemma PlacedDistinct(positions: map<string, Position>, columns: Columns, anchor: Position, done: set<nat>,
                       p: string, q: string)
    requires Placed(positions, columns, anchor, done) && p in positions && q in positions && p != q
    ensures positions[p] != positions[q]
  {
    var c, r :| c in done && c in columns && LastRow(columns[c], r, p) && positions[p] == PlaceOf(anchor, c, r);
    var c', r' :| c' in done && c' in columns && LastRow(columns[c'], r', q) && positions[q] == PlaceOf(anchor, c', r');
    PlaceUnique(anchor, c, r, c', r');
  }

  method PlaceColumn(positions: map<string, Position>, columns: Columns, anchor: Position, done: set<nat>, c: nat)
    returns (more: map<string, Position>)
    requires Placed(positions, columns, anchor, done) && c in columns && c !in done
    requires forall k, p :: k in done && k in columns && p in columns[k] ==> p !in columns[c]
    ensures Placed(more, columns, anchor, done + {c})
    ensures more.Keys == positions.Keys + set p | p in columns[c]
  {
    more := positions;
    var paths := columns[c];
    for row := 0 to |paths|
      invariant more.Keys == positions.Keys + set p | p in paths[..row]
      invariant forall p :: p in more && p in paths[..row] ==>
                  exists r :: LastRow(paths[..row], r, p) && more[p] == PlaceOf(anchor, c, r)
      invariant forall p :: p in more && p !in paths[..row] ==> p in positions && more[p] == positions[p]
    {
      assert paths[..row + 1] == paths[..row] + [paths[row]];
      ghost var before := more;
      more := more[paths[row] := PlaceOf(anchor, c, row)];
      forall p | p in more && p in paths[..row + 1]
        ensures exists r :: LastRow(paths[..row + 1], r, p) && more[p] == PlaceOf(anchor, c, r)
      {
        if p == paths[row] {
          assert LastRow(paths[..row + 1], row, p);
        } else {
          var r :| LastRow(paths[..row], r, p) && before[p] == PlaceOf(anchor, c, r);
          assert LastRow(paths[..row + 1], r, p);
        }
      }
    }
    assert paths[..|paths|] == paths;
    forall p | p in more
      ensures exists k, r :: k in done + {c} && k in columns && LastRow(columns[k], r, p) && more[p] == PlaceOf(anchor, k, r)
    {
      if p in paths {
        var r :| LastRow(paths, r, p) && more[p] == PlaceOf(anchor, c, r);
        assert c in done + {c} && LastRow(columns[c], r, p);
      }
    }
  }

  // ---- rows --------------------------------------------------------------

  /** The nodes of one column in the order they were given. */
  function InOrder(nodes: seq<string>, depths: map<string, nat>, c: nat): seq<string> {
    if nodes == [] then [] else
    var front, last := nodes[..|nodes| - 1], nodes[|nodes| - 1];
    InOrder(front, depths, c) + (if last in depths && depths[last] == c then [last] else [])
  }

  ghost predicate Listed(columns: Columns, nodes: seq<string>, depths: map<string, nat>) {
    && (forall c :: c in columns ==> columns[c] == InOrder(nodes, depths, c))
    && (forall p :: p in nodes ==> p in depths && depths[p] in columns)
  }

  lemma {:induction false} SameOrder(nodes: seq<string>, depths: map<string, nat>, depths': map<string, nat>, c: nat)
    requires Extends(depths, depths') && forall p :: p in nodes ==> p in depths
    ensures InOrder(nodes, depths', c) == InOrder(nodes, depths, c)
  {
    if nodes != [] { SameOrder(nodes[..|nodes| - 1], depths, depths', c); }
  }

  lemma {:induction false} NoneInOrder(nodes: seq<string>, depths: map<string, nat>, c: nat)
    requires forall p :: p in nodes ==> p in depths && depths[p] != c
    ensures InOrder(nodes, depths, c) == []
  {
    if nodes != [] {
      assert nodes[|nodes| - 1] in nodes;
      NoneInOrder(nodes[..|nodes| - 1], depths, c);
    }
  }

  lemma ListedNext(columns: Columns, nodes: seq<string>, depths: map<string, nat>, depths': map<string, nat>, p: string)
    requires Listed(columns, nodes, depths) && Extends(depths, depths') && p in depths'
    ensures Listed(Added(columns, depths'[p], p), nodes + [p], depths')
  {
    var d, next := depths'[p], nodes + [p];
    assert next[..|nodes|] == nodes;
    forall c | c in Added(columns, d, p) ensures Added(columns, d, p)[c] == InOrder(next, depths', c) {
      SameOrder(nodes, depths, depths', c);
      if c !in columns {
        forall q | q in nodes ensures q in depths' && depths'[q] != c { }
        NoneInOrder(nodes, depths', c);
      }
    }
  }

  /** How many nodes given earlier stand in the same column. */
  function Above(nodes: seq<string>, positions: map<string, Position>, x: real): nat {
    if nodes == [] then 0 else
    var last := nodes[|nodes| - 1];
    Above(nodes[..|nodes| - 1], positions, x) + (if last in positions && positions[last].0 == x then 1 else 0)
  }

  lemma {:induction false} AboveIs(nodes: seq<string>, positions: map<string, Position>, depths: map<string, nat>,
                                   anchor: Position, c: nat)
    requires forall p :: p in nodes ==> p in positions && p in depths && InColumn(positions[p], anchor, depths[p])
    ensures Above(nodes, positions, anchor.0 + c as real * COLUMN_WIDTH) == |InOrder(nodes, depths, c)|
  {
    if nodes != [] {
      assert nodes[|nodes| - 1] in nodes;
      AboveIs(nodes[..|nodes| - 1], positions, depths, anchor, c);
    }
  }

  lemma {:induction false} OrderSplits(nodes: seq<string>, depths: map<string, nat>, c: nat, i: nat)
    requires i < |nodes| && nodes[i] in depths && depths[nodes[i]] == c
    requires forall j :: i < j < |nodes| ==> nodes[j] != nodes[i]
    ensures LastRow(InOrder(nodes, depths, c), |InOrder(nodes[..i], depths, c)|, nodes[i])
  {
    var n := |nodes| - 1;
    if i < n {
      assert nodes[..n][..i] == nodes[..i];
      OrderSplits(nodes[..n], depths, c, i);
    }
  }

  lemma OneLastRow(column: seq<string>, r: nat, k: nat, p: string)
    requires LastRow(column, r, p) && LastRow(column, k, p)
    ensures r == k
  {
  }

  /** Rows go down in the order the nodes were given: each earlier node of the column takes one. A node given twice takes
      the later row. */
  ghost predicate RowsInOrder(positions: map<string, Position>, nodes: seq<string>, anchor: Position) {
    forall i :: 0 <= i < |nodes| && nodes[i] in positions && (forall j :: i < j < |nodes| ==> nodes[j] != nodes[i]) ==>
      positions[nodes[i]].1 == anchor.1 - Above(nodes[..i], positions, positions[nodes[i]].0) as real * ROW_HEIGHT
  }

  lemma RowIs(positions: map<string, Position>, columns: Columns, nodes: seq<string>, depths: map<string, nat>,
              anchor: Position, i: nat)
    requires Placed(positions, columns, anchor, columns.Keys) && Listed(columns, nodes, depths)
    requires forall p :: p in nodes ==> p in positions && p in depths && InColumn(positions[p], anchor, depths[p])
    requires i < |nodes| && forall j :: i < j < |nodes| ==> nodes[j] != nodes[i]
    ensures positions[nodes[i]].1 == anchor.1 - Above(nodes[..i], positions, positions[nodes[i]].0) as real * ROW_HEIGHT
  {
    hide InOrder, Above, LastRow, InColumn, PlaceOf;
    var p := nodes[i];
    assert p in nodes;
    var c, r :| c in columns && LastRow(columns[c], r, p) && positions[p] == PlaceOf(anchor, c, r);
    PlaceIn(positions[p], anchor, c, r, depths[p]);
    OrderSplits(nodes, depths, c, i);
    OneLastRow(columns[c], r, |InOrder(nodes[..i], depths, c)|, p);
    AboveIs(nodes[..i], positions, depths, anchor, c);
  }

  lemma AllRows(positions: map<string, Position>, columns: Columns, nodes: seq<string>, depths: map<string, nat>,
                anchor: Position)
    requires Placed(positions, columns, anchor, columns.Keys) && Listed(columns, nodes, depths)
    requires forall p :: p in nodes ==> p in positions && p in depths && InColumn(positions[p], anchor, depths[p])
    ensures RowsInOrder(positions, nodes, anchor)
  {
    hide Placed, Listed, InColumn, Above;
    forall i | 0 <= i < |nodes| && nodes[i] in positions && (forall j :: i < j < |nodes| ==> nodes[j] != nodes[i])
      ensures positions[nodes[i]].1 == anchor.1 - Above(nodes[..i], positions, positions[nodes[i]].0) as real * ROW_HEIGHT
    {
      RowIs(positions, columns, nodes, depths, anchor, i);
    }
  }

  lemma PlaceIn(position: Position, anchor: Position, c: nat, r: nat, d: nat)
    requires position == PlaceOf(anchor, c, r) && InColumn(position, anchor, d)
    ensures d == c && position.0 == anchor.0 + c as real * COLUMN_WIDTH && position.1 == anchor.1 - r as real * ROW_HEIGHT
  {
  }

  /** Where a node's horizontal position says its depth is. */
  predicate InColumn(position: Position, anchor: Position, d: nat) {
    position.0 == anchor.0 + d as real * COLUMN_WIDTH
  }

  lemma NamesNext(nodes: seq<string>, i: nat)
    requires i < |nodes|
    ensures Elements(nodes[..i + 1]) == Elements(nodes[..i]) + {nodes[i]}
  {
    assert nodes[..i + 1] == nodes[..i] + [nodes[i]];
  }

  /** Lays out the whole set. Distinct nodes never share a position; without cycles a node's column is its longest
      way upstream. */
  method LayeredLayout(nodes: seq<string>, edges: Edges, anchor: Position) returns (positions: map<string, Position>)
    ensures positions.Keys == Elements(nodes)
    ensures forall p, q :: p in positions && q in positions && p != q ==> positions[p] != positions[q]
    ensures Acyclic(edges, Elements(nodes)) ==> ByDepth(positions, edges, Elements(nodes), anchor)
    ensures Acyclic(edges, Elements(nodes)) ==>
              forall p, u :: p in positions && u in Upstream(edges, Elements(nodes), p) ==>
                u in positions && positions[u].0 < positions[p].0
    ensures RowsInOrder(positions, nodes, anchor)
  {
    hide IsLongest, Ranked, Sorted, Placed, Exact, Listed, RowsInOrder, InColumn;
    var members := Elements(nodes);
    ghost var rank: map<string, nat> := map[];
    if Acyclic(edges, members) { rank :| Ranked(edges, members, rank); }
    ghost var ranked := Ranked(edges, members, rank);
    var table := new DepthTable(edges, members);
    var columns: Columns := map[];
    NothingSorted(edges, members);
    NothingListed();
    assert Elements(nodes[..0]) == {};
    for i := 0 to |nodes|
      invariant table.Valid() && table.visiting == {}
      invariant ranked ==> Exact(edges, members, table.depths)
      invariant Sorted(columns, table.depths, Elements(nodes[..i]))
      invariant Listed(columns, nodes[..i], table.depths)
    {
      ghost var before := table.depths;
      var d := table.Depth(nodes[i], rank);
      NamesNext(nodes, i);
      SortedNext(columns, before, table.depths, Elements(nodes[..i]), nodes[i]);
      ListedNext(columns, nodes[..i], before, table.depths, nodes[i]);
      assert nodes[..i + 1] == nodes[..i] + [nodes[i]];
      columns := Added(columns, d, nodes[i]);
    }
    assert nodes[..|nodes|] == nodes;
    positions := map[];
    var depths := table.depths;
    var rest, done := columns.Keys, {};
    NothingPlaced(columns, anchor);
    while rest != {}
      invariant rest + done == columns.Keys && rest !! done
      invariant Placed(positions, columns, anchor, done)
      decreases rest
    {
      var c :| c in rest;
      ColumnsApart(columns, depths, members, done, c);
      positions := PlaceColumn(positions, columns, anchor, done, c);
      rest, done := rest - {c}, done + {c};
    }
    assert done == columns.Keys;
    AllPlaced(positions, columns, anchor, depths, members);
    AllRows(positions, columns, nodes, depths, anchor);
    forall p, q | p in positions && q in positions && p != q ensures positions[p] != positions[q] {
      PlacedDistinct(positions, columns, anchor, columns.Keys, p, q);
    }
    if ranked {
      forall p | p in positions
        ensures exists d :: IsLongest(edges, members, p, d) && InColumn(positions[p], anchor, d)
      {
        ExactAt(edges, members, depths, p);
      }
      forall p, u | p in positions && u in Upstream(edges, members, p) ensures positions[u].0 < positions[p].0 {
        EdgesGoRight(positions, edges, members, anchor, p, u);
      }
    }
  }

  /** Every position says how long the way upstream is. */
  ghost predicate ByDepth(positions: map<string, Position>, edges: Edges, members: set<string>, anchor: Position) {
    forall p :: p in positions ==> exists d :: IsLongest(edges, members, p, d) && InColumn(positions[p], anchor, d)
  }

  /** Without cycles every edge goes strictly from left to right. */
  lemma EdgesGoRight(positions: map<string, Position>, edges: Edges, members: set<string>, anchor: Position,
                     p: string, u: string)
    requires ByDepth(positions, edges, members, anchor) && positions.Keys == members
    requires p in members && u in Upstream(edges, members, p)
    ensures positions[u].0 < positions[p].0
  {
    var d :| IsLongest(edges, members, p, d) && InColumn(positions[p], anchor, d);
    var e :| IsLongest(edges, members, u, e) && InColumn(positions[u], anchor, e);
    EdgeLonger(edges, members, p, u, d, e);
  }

  lemma NothingSorted(edges: Edges, members: set<string>)
    ensures Sorted(map[], map[], {}) && Exact(edges, members, map[])
  {
  }

  lemma NothingListed()
    ensures Listed(map[], [], map[])
  {
  }

  /** No node is in two columns. */
  lemma ColumnsApart(columns: Columns, depths: map<string, nat>, placed: set<string>, done: set<nat>, c: nat)
    requires Sorted(columns, depths, placed) && c in columns && c !in done
    ensures forall k, p :: k in done && k in columns && p in columns[k] ==> p !in columns[c]
  {
    forall k, p | k in done && k in columns && p in columns[k] ensures p !in columns[c] {
      assert depths[p] == k;
    }
  }

  lemma NothingPlaced(columns: Columns, anchor: Position)
    ensures Placed(map[], columns, anchor, {})
  {
  }

  lemma AllPlaced(positions: map<string, Position>, columns: Columns, anchor: Position, depths: map<string, nat>,
                  placed: set<string>)
    requires Placed(positions, columns, anchor, columns.Keys) && Sorted(columns, depths, placed)
    ensures positions.Keys == placed
    ensures forall p :: p in positions ==> p in depths && InColumn(positions[p], anchor, depths[p])
  {
    forall p | p in positions ensures p in placed && p in depths && InColumn(positions[p], anchor, depths[p]) {
      var c, r :| c in columns && LastRow(columns[c], r, p) && positions[p] == PlaceOf(anchor, c, r);
    }
  }
}
