/** The bounded breadth-first scan of the live scene, and the lookup of stable ids among the scanned nodes. */
module SceneScan {
  import opened Wrappers
  import opened Collections

  /** A handle of a live node. */
  type Handle = nat

  type Children = Handle -> seq<Handle>

  datatype ScanError = TooLarge | IdentityConflict

  // ---- the specification -------------------------------------------------

  predicate IsChild(kids: Children, p: Handle, i: nat, c: Handle) {
    i < |kids(p)| && kids(p)[i] == c
  }

  /** `below` are the nodes under the root: each of them is the child of exactly one node, in exactly one place, one
      level further down. */
  ghost predicate IsTree(kids: Children, root: Handle, below: set<Handle>, depth: Handle -> nat) {
    && root !in below
    && (forall p, c :: (p == root || p in below) && c in kids(p) ==> c in below && depth(c) == depth(p) + 1)
    && (forall c :: c in below ==> exists p, i :: (p == root || p in below) && IsChild(kids, p, i, c))
    && (forall p, i, q, j, c ::
          (p == root || p in below) && (q == root || q in below) && IsChild(kids, p, i, c) && IsChild(kids, q, j, c) ==>
            p == q && i == j)
  }

  predicate ByLevel(s: seq<Handle>, depth: Handle -> nat) {
    forall i, j :: 0 <= i <= j < |s| ==> depth(s[i]) <= depth(s[j])
  }

  // ---- one step of the scan ----------------------------------------------

  /** Everything met so far: visited nodes first, then those waiting; each once, level by level, at most one level
      ahead of the next to visit. */
  ghost predicate Frontier(kids: Children, root: Handle, below: set<Handle>, depth: Handle -> nat,
                           nodes: seq<Handle>, pending: seq<Handle>)
  {
    var seen := nodes + pending;
    && Distinct(seen) && Elements(seen) <= below && ByLevel(seen, depth)
    && (forall c :: c in kids(root) ==> c in seen)
    && (forall p, c :: p in nodes && c in kids(p) ==> c in seen)
    && (forall c :: c in seen ==> c in kids(root) || exists p :: p in nodes && c in kids(p))
    && (forall c :: c in pending && pending != [] ==> depth(c) <= depth(pending[0]) + 1)
  }

  lemma StartFrontier(kids: Children, root: Handle, below: set<Handle>, depth: Handle -> nat)
    requires IsTree(kids, root, below, depth)
    ensures Frontier(kids, root, below, depth, [], kids(root))
  {
    var pending := kids(root);
    assert [] + pending == pending;
    KidsDistinct(kids, root, below, depth, root);
  }

  lemma KidsDistinct(kids: Children, root: Handle, below: set<Handle>, depth: Handle -> nat, p: Handle)
    requires IsTree(kids, root, below, depth) && (p == root || p in below)
    ensures Distinct(kids(p)) && Elements(kids(p)) <= below
    ensures forall c :: c in kids(p) ==> depth(c) == depth(p) + 1
  {
    forall i, j | 0 <= i < j < |kids(p)| ensures kids(p)[i] != kids(p)[j] {
      if kids(p)[i] == kids(p)[j] {
        var c := kids(p)[i];
        assert IsChild(kids, p, i, c) && IsChild(kids, p, j, c);
      }
    }
  }

  /** A node is met through its one parent only. */
  lemma OneParent(kids: Children, root: Handle, below: set<Handle>, depth: Handle -> nat, p: Handle, q: Handle, c: Handle)
    requires IsTree(kids, root, below, depth) && (p == root || p in below) && (q == root || q in below)
    requires c in kids(p) && c in kids(q)
    ensures p == q
  {
    var i :| 0 <= i < |kids(p)| && kids(p)[i] == c;
    var j :| 0 <= j < |kids(q)| && kids(q)[j] == c;
    assert IsChild(kids, p, i, c) && IsChild(kids, q, j, c);
  }

  lemma StepFrontier(kids: Children, root: Handle, below: set<Handle>, depth: Handle -> nat,
                     nodes: seq<Handle>, pending: seq<Handle>)
    requires IsTree(kids, root, below, depth) && Frontier(kids, root, below, depth, nodes, pending) && pending != []
    ensures Frontier(kids, root, below, depth, nodes + [pending[0]], pending[1..] + kids(pending[0]))
  {
    var x := pending[0];
    var seen, more := nodes + pending, kids(x);
    assert seen[|nodes|] == x;
    assert x in below by { assert x in Elements(seen); }
    var nodes', pending' := nodes + [x], pending[1..] + more;
    assert nodes' + pending' == seen + more;
    KidsDistinct(kids, root, below, depth, x);
    forall c | c in more ensures c !in seen {
      if c in seen { MetOnce(kids, root, below, depth, nodes, pending, c); }
    }
    StillDistinct(seen, more);
    StepLevels(kids, root, below, depth, nodes, pending);
    forall c | c in seen + more ensures c in kids(root) || exists p :: p in nodes' && c in kids(p) {
      if c in seen && c !in kids(root) {
        var p :| p in nodes && c in kids(p);
        assert p in nodes';
      } else if c in more {
        assert x in nodes';
      }
    }
    assert Elements(seen + more) == Elements(seen) + Elements(more);
  }

  lemma MetOnce(kids: Children, root: Handle, below: set<Handle>, depth: Handle -> nat, nodes: seq<Handle>,
                pending: seq<Handle>, c: Handle)
    requires IsTree(kids, root, below, depth) && Frontier(kids, root, below, depth, nodes, pending) && pending != []
    requires c in nodes + pending
    ensures c !in kids(pending[0])
  {
    var x, seen := pending[0], nodes + pending;
    assert seen[|nodes|] == x;
    assert x in Elements(seen);
    if c in kids(x) {
      if c in kids(root) {
        OneParent(kids, root, below, depth, x, root, c);
      } else {
        var p :| p in nodes && c in kids(p);
        var i :| 0 <= i < |nodes| && nodes[i] == p;
        assert seen[i] == p && p in Elements(seen);
        OneParent(kids, root, below, depth, x, p, c);
      }
    }
  }

  lemma StillDistinct(s: seq<Handle>, t: seq<Handle>)
    requires Distinct(s) && Distinct(t) && forall c :: c in t ==> c !in s
    ensures Distinct(s + t)
  {
    forall i, j | 0 <= i < j < |s + t| ensures (s + t)[i] != (s + t)[j] {
      if i < |s| <= j {
        assert (s + t)[j] in t && (s + t)[i] in s;
      }
    }
  }

  lemma StepLevels(kids: Children, root: Handle, below: set<Handle>, depth: Handle -> nat, nodes: seq<Handle>,
                   pending: seq<Handle>)
    requires IsTree(kids, root, below, depth) && Frontier(kids, root, below, depth, nodes, pending) && pending != []
    ensures ByLevel(nodes + pending + kids(pending[0]), depth)
    ensures var rest := pending[1..] + kids(pending[0]);
            forall c :: c in rest ==> depth(c) <= depth(rest[0]) + 1
  {
    var x, seen := pending[0], nodes + pending;
    var all, rest := seen + kids(x), pending[1..] + kids(x);
    assert seen[|nodes|] == x && x in Elements(seen);
    KidsDistinct(kids, root, below, depth, x);
    forall i, j | 0 <= i <= j < |all| ensures depth(all[i]) <= depth(all[j]) {
      if i < |seen| <= j {
        assert all[j] in kids(x);
        if i >= |nodes| { assert all[i] == pending[i - |nodes|]; } else { assert depth(seen[i]) <= depth(seen[|nodes|]); }
      } else if |seen| <= i {
        assert all[i] in kids(x) && all[j] in kids(x);
      }
    }
    forall c | c in rest ensures depth(c) <= depth(rest[0]) + 1 {
      if |pending| > 1 {
        assert rest[0] == pending[1] == seen[|nodes| + 1];
        assert depth(seen[|nodes|]) <= depth(seen[|nodes| + 1]);
        if c in pending { assert depth(c) <= depth(x) + 1; }
      } else {
        assert rest == kids(x);
      }
    }
  }

  /** With nothing left to visit, every node below the root has been visited. */
  lemma {:induction false} AllVisited(kids: Children, root: Handle, below: set<Handle>, depth: Handle -> nat,
                                      nodes: seq<Handle>, d: Handle)
    requires IsTree(kids, root, below, depth) && Frontier(kids, root, below, depth, nodes, []) && d in below
    ensures d in nodes
    decreases depth(d)
  {
    assert nodes + [] == nodes;
    var p, i :| (p == root || p in below) && IsChild(kids, p, i, d);
    assert d in kids(p);
    if p != root {
      AllVisited(kids, root, below, depth, nodes, p);
    }
  }

  // ---- levels in order ---------------------------------------------------

  /** The children of a list of nodes, in the order of the list. */
  function ChildrenOf(kids: Children, level: seq<Handle>): seq<Handle> {
    if level == [] then [] else ChildrenOf(kids, level[..|level| - 1]) + kids(level[|level| - 1])
  }

  function Level(kids: Children, root: Handle, k: nat): seq<Handle> {
    if k == 0 then kids(root) else ChildrenOf(kids, Level(kids, root, k - 1))
  }

  /** The first `k` levels, one after the other. */
  function Levels(kids: Children, root: Handle, k: nat): seq<Handle> {
    if k == 0 then [] else Levels(kids, root, k - 1) + Level(kids, root, k - 1)
  }

  /** The scan has visited `k` whole levels and `i` nodes of the next; waiting are the rest of that level and the
      children of what was visited of it. */
  ghost predicate AtLevel(kids: Children, root: Handle, nodes: seq<Handle>, pending: seq<Handle>, k: nat, i: nat) {
    var level := Level(kids, root, k);
    && i <= |level|
    && nodes == Levels(kids, root, k) + level[..i]
    && pending == level[i..] + ChildrenOf(kids, level[..i])
  }

  lemma AtStart(kids: Children, root: Handle)
    ensures AtLevel(kids, root, [], kids(root), 0, 0)
  {
    assert kids(root)[0..] + ChildrenOf(kids, kids(root)[..0]) == kids(root);
  }

  lemma NextLevel(kids: Children, root: Handle, nodes: seq<Handle>, pending: seq<Handle>, k: nat, i: nat)
    requires AtLevel(kids, root, nodes, pending, k, i) && i == |Level(kids, root, k)|
    ensures AtLevel(kids, root, nodes, pending, k + 1, 0) && pending == Level(kids, root, k + 1)
  {
    var level, next := Level(kids, root, k), Level(kids, root, k + 1);
    assert level[..i] == level && next[0..] + ChildrenOf(kids, next[..0]) == next;
  }

  lemma NextInLevel(kids: Children, root: Handle, nodes: seq<Handle>, pending: seq<Handle>, k: nat, i: nat)
    requires AtLevel(kids, root, nodes, pending, k, i) && i < |Level(kids, root, k)|
    ensures pending != []
    ensures AtLevel(kids, root, nodes + [pending[0]], pending[1..] + kids(pending[0]), k, i + 1)
  {
    hide Levels, Level;
    var level := Level(kids, root, k);
    assert level[i..] == [level[i]] + level[i + 1..];
    assert pending[0] == level[i] && pending[1..] == level[i + 1..] + ChildrenOf(kids, level[..i]);
    assert level[..i + 1] == level[..i] + [level[i]];
    assert ChildrenOf(kids, level[..i + 1]) == ChildrenOf(kids, level[..i]) + kids(level[i]) by {
      assert level[..i + 1][..i] == level[..i];
    }
  }

  lemma StillIn(kids: Children, root: Handle, nodes: seq<Handle>, pending: seq<Handle>, k: nat, i: nat)
    requires AtLevel(kids, root, nodes, pending, k, i)
    ensures i <= |Level(kids, root, k)|
  {
  }

  lemma AtEnd(kids: Children, root: Handle, nodes: seq<Handle>, k: nat, i: nat)
    requires AtLevel(kids, root, nodes, [], k, i)
    ensures Level(kids, root, k + 1) == [] && nodes == Levels(kids, root, k + 1)
  {
    var level := Level(kids, root, k);
    assert |level[i..]| == 0 && level[..i] == level;
  }

  // ---- the scan ----------------------------------------------------------

  /** Terminates on any graph, cyclic ones included; the answer is the levels one after the other, each in the order of
      the one above. On a tree: every node below the root exactly once and level by level, or the too-large error
      exactly when there are more than the bound. */
  method ScanScene(kids: Children, root: Option<Handle>, maxNodes: nat, ghost below: set<Handle>, ghost depth: Handle -> nat)
    returns (r: Result<seq<Handle>, ScanError>)
    ensures r.Ok? ==> |r.value| <= maxNodes
    ensures root.None? ==> r == Ok([])
    ensures root.Some? && r.Ok? ==>
              exists k :: Level(kids, root.value, k) == [] && r.value == Levels(kids, root.value, k)
    ensures root.Some? && IsTree(kids, root.value, below, depth) ==>
              && (r.Ok? <==> |below| <= maxNodes) && (r.Err? ==> r.error == TooLarge)
              && (r.Ok? ==> Distinct(r.value) && Elements(r.value) == below && ByLevel(r.value, depth))
  {
    hide IsTree, Frontier, Distinct, ByLevel, Elements, AtLevel, Level, Levels;
    if root.None? { return Ok([]); }
    ghost var tree := IsTree(kids, root.value, below, depth);
    var pending, nodes := kids(root.value), [];
    if tree { StartFrontier(kids, root.value, below, depth); }
    ghost var k: nat, i: nat := 0, 0;
    AtStart(kids, root.value);
    while pending != []
      invariant |nodes| <= maxNodes
      invariant i <= |Level(kids, root.value, k)| && AtLevel(kids, root.value, nodes, pending, k, i)
      invariant tree ==> Frontier(kids, root.value, below, depth, nodes, pending)
      decreases maxNodes - |nodes|, pending != []
    {
      if |nodes| >= maxNodes {
        if tree { OneTooMany(kids, root.value, below, depth, nodes, pending); }
        return Err(TooLarge);
      }
      if tree { StepFrontier(kids, root.value, below, depth, nodes, pending); }
      if i == |Level(kids, root.value, k)| {
        NextLevel(kids, root.value, nodes, pending, k, i);
        k, i := k + 1, 0;
      }
      NextInLevel(kids, root.value, nodes, pending, k, i);
      i := i + 1;
      StillIn(kids, root.value, nodes + [pending[0]], pending[1..] + kids(pending[0]), k, i);
      var node := pending[0];
      nodes := nodes + [node];
      pending := pending[1..] + kids(node);
    }
    AtEnd(kids, root.value, nodes, k, i);
    if tree { Complete(kids, root.value, below, depth, nodes); }
    r := Ok(nodes);
  }

  lemma OneTooMany(kids: Children, root: Handle, below: set<Handle>, depth: Handle -> nat, nodes: seq<Handle>,
                   pending: seq<Handle>)
    requires Frontier(kids, root, below, depth, nodes, pending) && pending != []
    ensures |nodes| < |below|
  {
    DistinctCount(nodes + pending);
    SubsetCount(Elements(nodes + pending), below);
  }

  lemma Complete(kids: Children, root: Handle, below: set<Handle>, depth: Handle -> nat, nodes: seq<Handle>)
    requires IsTree(kids, root, below, depth) && Frontier(kids, root, below, depth, nodes, [])
    ensures Distinct(nodes) && Elements(nodes) == below && ByLevel(nodes, depth) && |nodes| == |below|
  {
    assert nodes + [] == nodes;
    forall d | d in below ensures d in nodes { AllVisited(kids, root, below, depth, nodes, d); }
    DistinctCount(nodes);
  }

  // ---- identity ----------------------------------------------------------

  /** Two of the nodes mirror the same wanted id. */
  predicate Clash(nodes: seq<Handle>, idOf: Handle -> Option<string>, wanted: set<string>) {
    exists i, j :: 0 <= i < j < |nodes| && idOf(nodes[i]).Some? && idOf(nodes[i]) == idOf(nodes[j])
                   && idOf(nodes[i]).value in wanted
  }

  /** Conflicts exactly when a wanted id occurs twice; otherwise finds exactly the wanted ids that are live, each with
      its node. */
  method RequireUniqueIds(nodes: seq<Handle>, idOf: Handle -> Option<string>, wanted: set<string>)
    returns (r: Result<map<string, Handle>, ScanError>)
    ensures r.Err? <==> Clash(nodes, idOf, wanted)
    ensures r.Err? ==> r.error == IdentityConflict
    ensures r.Ok? ==> r.value.Keys == set n | n in nodes && idOf(n).Some? && idOf(n).value in wanted :: idOf(n).value
    ensures r.Ok? ==> forall id :: id in r.value ==> r.value[id] in nodes && idOf(r.value[id]) == Some(id)
  {
    var matches: map<string, Handle> := map[];
    for i := 0 to |nodes|
      invariant forall id :: id in matches ==>
                  id in wanted && exists k :: 0 <= k < i && nodes[k] == matches[id] && idOf(nodes[k]) == Some(id)
      invariant forall k :: 0 <= k < i && idOf(nodes[k]).Some? && idOf(nodes[k]).value in wanted ==>
                  idOf(nodes[k]).value in matches
      invariant !Clash(nodes[..i], idOf, wanted)
    {
      var id := idOf(nodes[i]);
      if id.Some? && id.value in wanted {
        if id.value in matches {
          assert Clash(nodes, idOf, wanted);
          return Err(IdentityConflict);
        }
        matches := matches[id.value := nodes[i]];
      }
      NoClashNext(nodes, idOf, wanted, i);
    }
    assert nodes[..|nodes|] == nodes;
    r := Ok(matches);
  }

  lemma NoClashNext(nodes: seq<Handle>, idOf: Handle -> Option<string>, wanted: set<string>, i: nat)
    requires i < |nodes| && !Clash(nodes[..i], idOf, wanted)
    requires forall k :: 0 <= k < i && idOf(nodes[k]).Some? && idOf(nodes[k]).value in wanted ==>
               idOf(nodes[k]) != idOf(nodes[i])
    ensures !Clash(nodes[..i + 1], idOf, wanted)
  {
    var longer := nodes[..i + 1];
    forall a, b | 0 <= a < b < |longer| && idOf(longer[a]).Some? && idOf(longer[a]).value in wanted
      ensures idOf(longer[a]) != idOf(longer[b])
    {
      if b < i { assert nodes[..i][a] == longer[a] && nodes[..i][b] == longer[b]; }
    }
  }

  /** Among distinct nodes a clash is two different live nodes with one id. */
  lemma ClashMeans(nodes: seq<Handle>, idOf: Handle -> Option<string>, wanted: set<string>)
    requires Distinct(nodes)
    ensures Clash(nodes, idOf, wanted)
       <==> exists a, b :: a in nodes && b in nodes && a != b && idOf(a).Some? && idOf(a) == idOf(b)
                           && idOf(a).value in wanted
  {
    if a, b :| a in nodes && b in nodes && a != b && idOf(a).Some? && idOf(a) == idOf(b) && idOf(a).value in wanted {
      var i :| 0 <= i < |nodes| && nodes[i] == a;
      var j :| 0 <= j < |nodes| && nodes[j] == b;
      assert i < j || j < i;
    }
  }
}
