/** Counting the parts of a mesh: vertices that share a face belong together. */
module UnionFind {
  import opened Wrappers
  import opened Collections

  // ---- the specification -------------------------------------------------

  type Links = set<(nat, nat)>

  predicate Adjacent(links: Links, a: nat, b: nat) {
    (a, b) in links || (b, a) in links
  }

  predicate IsPath(links: Links, s: seq<nat>) {
    s != [] && forall k :: 0 <= k < |s| - 1 ==> Adjacent(links, s[k], s[k + 1])
  }

  ghost predicate Connected(links: Links, a: nat, b: nat) {
    exists s :: IsPath(links, s) && s[0] == a && s[|s| - 1] == b
  }

  /** Two vertices share a face. */
  function SharedFace(faces: seq<seq<nat>>): Links {
    set f, a, b | 0 <= f < |faces| && a in faces[f] && b in faces[f] :: (a, b)
  }

  ghost function ComponentOf(n: nat, links: Links, a: nat): set<nat> {
    set b | 0 <= b < n && Connected(links, a, b)
  }

  /** The connected components; a vertex on no face is one by itself. */
  ghost function Components(n: nat, links: Links): set<set<nat>> {
    set a | 0 <= a < n :: ComponentOf(n, links, a)
  }

  // ---- connectedness -----------------------------------------------------

  lemma Reflexive(links: Links, a: nat)
    ensures Connected(links, a, a)
  {
    assert IsPath(links, [a]) && [a][0] == a;
  }

  lemma OneStep(links: Links, a: nat, b: nat)
    requires Adjacent(links, a, b)
    ensures Connected(links, a, b)
  {
    var s := [a, b];
    assert IsPath(links, s) && s[0] == a && s[|s| - 1] == b;
  }

  lemma Symmetric(links: Links, a: nat, b: nat)
    requires Connected(links, a, b)
    ensures Connected(links, b, a)
  {
    var s :| IsPath(links, s) && s[0] == a && s[|s| - 1] == b;
    var back := seq(|s|, i requires 0 <= i < |s| => s[|s| - 1 - i]);
    forall k | 0 <= k < |back| - 1 ensures Adjacent(links, back[k], back[k + 1]) {
      var m := |s| - 2 - k;
      assert Adjacent(links, s[m], s[m + 1]);
    }
    assert IsPath(links, back) && back[0] == b && back[|back| - 1] == a;
  }

  lemma Transitive(links: Links, a: nat, b: nat, c: nat)
    requires Connected(links, a, b) && Connected(links, b, c)
    ensures Connected(links, a, c)
  {
    var s :| IsPath(links, s) && s[0] == a && s[|s| - 1] == b;
    var t :| IsPath(links, t) && t[0] == b && t[|t| - 1] == c;
    var both := s + t[1..];
    forall k | 0 <= k < |both| - 1 ensures Adjacent(links, both[k], both[k + 1]) {
      if k >= |s| - 1 {
        assert both[k] == t[k - (|s| - 1)] && both[k + 1] == t[k + 1 - (|s| - 1)];
      }
    }
    assert both[|both| - 1] == c;
  }

  /** Paths can only gain from more links. */
  lemma Monotone(fewer: Links, more: Links, a: nat, b: nat)
    requires fewer <= more && Connected(fewer, a, b)
    ensures Connected(more, a, b)
  {
    var s :| IsPath(fewer, s) && s[0] == a && s[|s| - 1] == b;
    assert IsPath(more, s);
  }

  /** What a path over `links` can reach is anything that is closed under single steps. */
  lemma {:induction false} ClosedReach(links: Links, s: seq<nat>, inside: set<nat>)
    requires IsPath(links, s) && s[0] in inside
    requires forall a, b :: a in inside && Adjacent(links, a, b) ==> b in inside
    ensures s[|s| - 1] in inside
  {
    if |s| > 1 {
      var front := s[..|s| - 1];
      assert forall k :: 0 <= k < |front| - 1 ==> Adjacent(links, s[k], s[k + 1]);
      ClosedReach(links, front, inside);
      assert Adjacent(links, s[|s| - 2], s[|s| - 1]);
    }
  }

  /** Paths over one set of links, seen from another that connects every single step of it. */
  lemma {:induction false} Simulated(links: Links, other: Links, s: seq<nat>)
    requires IsPath(links, s)
    requires forall a, b :: Adjacent(links, a, b) ==> Connected(other, a, b)
    ensures Connected(other, s[0], s[|s| - 1])
  {
    if |s| == 1 {
      Reflexive(other, s[0]);
    } else {
      var front := s[..|s| - 1];
      assert forall k :: 0 <= k < |front| - 1 ==> Adjacent(links, s[k], s[k + 1]);
      Simulated(links, other, front);
      assert Adjacent(links, s[|s| - 2], s[|s| - 1]);
      Transitive(other, s[0], s[|s| - 2], s[|s| - 1]);
    }
  }

  /** Two sets of links that connect each other's steps connect the same vertices. */
  lemma SameConnected(links: Links, other: Links, a: nat, b: nat)
    requires forall x, y :: Adjacent(links, x, y) ==> Connected(other, x, y)
    requires forall x, y :: Adjacent(other, x, y) ==> Connected(links, x, y)
    ensures Connected(links, a, b) <==> Connected(other, a, b)
  {
    if Connected(links, a, b) {
      var s :| IsPath(links, s) && s[0] == a && s[|s| - 1] == b;
      Simulated(links, other, s);
    }
    if Connected(other, a, b) {
      var s :| IsPath(other, s) && s[0] == a && s[|s| - 1] == b;
      Simulated(other, links, s);
    }
  }

  /** Connected with one more link between `x` and `y`. */
  ghost predicate Bridged(links: Links, x: nat, y: nat, a: nat, b: nat) {
    || Connected(links, a, b)
    || (Connected(links, a, x) && Connected(links, y, b))
    || (Connected(links, a, y) && Connected(links, x, b))
  }

  lemma BridgedStep(links: Links, x: nat, y: nat, a: nat, b: nat, c: nat)
    requires Bridged(links, x, y, a, b) && Adjacent(links + {(x, y)}, b, c)
    ensures Bridged(links, x, y, a, c)
  {
    Reflexive(links, x);
    Reflexive(links, y);
    if Adjacent(links, b, c) {
      OneStep(links, b, c);
      if Connected(links, a, b) {
        Transitive(links, a, b, c);
      } else if Connected(links, a, x) && Connected(links, y, b) {
        Transitive(links, y, b, c);
      } else {
        Transitive(links, x, b, c);
      }
    }
  }

  lemma {:induction false} BridgedPath(links: Links, x: nat, y: nat, s: seq<nat>)
    requires IsPath(links + {(x, y)}, s)
    ensures Bridged(links, x, y, s[0], s[|s| - 1])
  {
    if |s| == 1 {
      Reflexive(links, s[0]);
    } else {
      var front := s[..|s| - 1];
      assert forall k :: 0 <= k < |front| - 1 ==> Adjacent(links + {(x, y)}, s[k], s[k + 1]);
      BridgedPath(links, x, y, front);
      assert Adjacent(links + {(x, y)}, s[|s| - 2], s[|s| - 1]);
      BridgedStep(links, x, y, s[0], s[|s| - 2], s[|s| - 1]);
    }
  }

  /** Adding one link joins exactly the two components it connects. */
  lemma LinkJoins(links: Links, x: nat, y: nat, a: nat, b: nat)
    ensures Connected(links + {(x, y)}, a, b) <==> Bridged(links, x, y, a, b)
  {
    var more := links + {(x, y)};
    if Connected(more, a, b) {
      var s :| IsPath(more, s) && s[0] == a && s[|s| - 1] == b;
      BridgedPath(links, x, y, s);
    }
    if Bridged(links, x, y, a, b) {
      OneStep(more, x, y);
      OneStep(more, y, x);
      if Connected(links, a, b) {
        Monotone(links, more, a, b);
      } else if Connected(links, a, x) && Connected(links, y, b) {
        Monotone(links, more, a, x);
        Monotone(links, more, y, b);
        Transitive(more, a, x, y);
        Transitive(more, a, y, b);
      } else {
        Monotone(links, more, a, y);
        Monotone(links, more, x, b);
        Transitive(more, a, y, x);
        Transitive(more, a, x, b);
      }
    }
  }

  // ---- the forest --------------------------------------------------------

  /** Parent pointers without a cycle: every step that is not at a root goes down a level. */
  predicate Forest(p: seq<nat>, level: seq<nat>) {
    |level| == |p| && forall i :: 0 <= i < |p| ==> p[i] < |p| && (p[i] != i ==> level[p[i]] < level[i])
  }

  function Root(p: seq<nat>, level: seq<nat>, i: nat): (r: nat)
    requires Forest(p, level) && i < |p|
    ensures r < |p| && p[r] == r
    decreases level[i]
  {
    if p[i] == i then i else Root(p, level, p[i])
  }

  predicate SameRoots(p: seq<nat>, q: seq<nat>, level: seq<nat>)
    requires Forest(p, level) && Forest(q, level) && |p| == |q|
  {
    forall i :: 0 <= i < |p| ==> Root(q, level, i) == Root(p, level, i)
  }

  /** Halving a path keeps the forest and every root. */
  lemma HalvingKeepsRoots(p: seq<nat>, level: seq<nat>, a: nat)
    requires Forest(p, level) && a < |p|
    ensures Forest(p[a := p[p[a]]], level) && SameRoots(p, p[a := p[p[a]]], level)
  {
    forall i | 0 <= i < |p| ensures Root(p[a := p[p[a]]], level, i) == Root(p, level, i) {
      HalvingKeepsRoot(p, level, a, i);
    }
  }

  lemma {:induction false} HalvingKeepsRoot(p: seq<nat>, level: seq<nat>, a: nat, i: nat)
    requires Forest(p, level) && a < |p| && i < |p| && Forest(p[a := p[p[a]]], level)
    ensures Root(p[a := p[p[a]]], level, i) == Root(p, level, i)
    decreases level[i]
  {
    var q := p[a := p[p[a]]];
    if q[i] != i {
      HalvingKeepsRoot(p, level, a, q[i]);
    }
  }

  /** The levels after hanging root `ra` below root `rb`. */
  function Raised(p: seq<nat>, level: seq<nat>, ra: nat, rb: nat): (l: seq<nat>)
    requires Forest(p, level) && ra < |p| && rb < |p|
    ensures |l| == |level|
  {
    seq(|p|, i requires 0 <= i < |p| => if Root(p, level, i) == ra then level[i] + level[rb] + 1 else level[i])
  }

  lemma UnionIsForest(p: seq<nat>, level: seq<nat>, ra: nat, rb: nat)
    requires Forest(p, level) && ra < |p| && rb < |p| && ra != rb && p[ra] == ra && p[rb] == rb
    ensures Forest(p[ra := rb], Raised(p, level, ra, rb))
  {
    var q, l := p[ra := rb], Raised(p, level, ra, rb);
    forall i | 0 <= i < |p| && q[i] != i ensures l[q[i]] < l[i] {
      if i != ra { assert Root(p, level, p[i]) == Root(p, level, i); }
    }
  }

  lemma {:induction false} UnionRoot(p: seq<nat>, level: seq<nat>, ra: nat, rb: nat, i: nat)
    requires Forest(p, level) && ra < |p| && rb < |p| && ra != rb && p[ra] == ra && p[rb] == rb && i < |p|
    requires Forest(p[ra := rb], Raised(p, level, ra, rb))
    ensures Root(p[ra := rb], Raised(p, level, ra, rb), i)
         == if Root(p, level, i) == ra then rb else Root(p, level, i)
    decreases level[i]
  {
    var q, l := p[ra := rb], Raised(p, level, ra, rb);
    if i == ra {
      assert Root(q, l, rb) == rb;
    } else if p[i] != i {
      UnionRoot(p, level, ra, rb, p[i]);
    }
  }

  /** The forest groups vertices exactly as the links do. */
  ghost predicate Groups(p: seq<nat>, level: seq<nat>, links: Links)
    requires Forest(p, level)
  {
    forall i, j :: 0 <= i < |p| && 0 <= j < |p| ==> (Root(p, level, i) == Root(p, level, j) <==> Connected(links, i, j))
  }

  lemma UnionGroups(p: seq<nat>, level: seq<nat>, links: Links, x: nat, y: nat)
    requires Forest(p, level) && Groups(p, level, links) && x < |p| && y < |p|
    ensures var ra, rb := Root(p, level, x), Root(p, level, y);
            if ra == rb then Groups(p, level, links + {(x, y)})
            else Forest(p[ra := rb], Raised(p, level, ra, rb))
                 && Groups(p[ra := rb], Raised(p, level, ra, rb), links + {(x, y)})
  {
    hide Connected;
    var ra, rb := Root(p, level, x), Root(p, level, y);
    if ra != rb { UnionIsForest(p, level, ra, rb); }
    forall i, j | 0 <= i < |p| && 0 <= j < |p|
      ensures var q, l := (if ra == rb then p else p[ra := rb]), (if ra == rb then level else Raised(p, level, ra, rb));
              Root(q, l, i) == Root(q, l, j) <==> Connected(links + {(x, y)}, i, j)
    {
      LinkJoins(links, x, y, i, j);
      if ra != rb {
        UnionRoot(p, level, ra, rb, i);
        UnionRoot(p, level, ra, rb, j);
      }
    }
  }

  lemma KeptGroups(p: seq<nat>, q: seq<nat>, level: seq<nat>, links: Links)
    requires Forest(p, level) && Forest(q, level) && |p| == |q| && SameRoots(p, q, level) && Groups(p, level, links)
    ensures Groups(q, level, links)
  {
    hide Connected;
  }

  lemma LoneGroups(n: nat)
    ensures var p, level := seq(n, i requires 0 <= i < n => i), seq(n, _ => 0);
            Forest(p, level) && Groups(p, level, {})
  {
    var p, level := seq(n, i requires 0 <= i < n => i), seq(n, _ => 0);
    forall i, j | 0 <= i < n && 0 <= j < n ensures Root(p, level, i) == Root(p, level, j) <==> Connected({}, i, j) {
      Reflexive({}, i);
      if Connected({}, i, j) {
        var s :| IsPath({}, s) && s[0] == i && s[|s| - 1] == j;
        ClosedReach({}, s, {i});
      }
    }
  }

  // ---- the algorithm -----------------------------------------------------

  /** Finds the root of `a`, halving the path on the way. */
  method Find(parent: array<nat>, ghost level: seq<nat>, a: nat) returns (r: nat)
    requires Forest(parent[..], level) && a < parent.Length
    modifies parent
    ensures Forest(parent[..], level) && SameRoots(old(parent[..]), parent[..], level)
    ensures r == Root(old(parent[..]), level, a)
  {
    r := a;
    while parent[r] != r
      invariant r < parent.Length && Forest(parent[..], level)
      invariant SameRoots(old(parent[..]), parent[..], level)
      invariant Root(parent[..], level, r) == Root(old(parent[..]), level, a)
      decreases level[r]
    {
      ghost var p := parent[..];
      HalvingKeepsRoots(p, level, r);
      parent[r] := parent[parent[r]];
      assert parent[..] == p[r := p[p[r]]];
      assert level[p[p[r]]] < level[r];
      r := parent[r];
    }
  }

  /** Joins the trees of two vertices. */
  method Union(parent: array<nat>, ghost level: seq<nat>, ghost links: Links, x: nat, y: nat)
    returns (ghost level': seq<nat>)
    requires Forest(parent[..], level) && Groups(parent[..], level, links) && x < parent.Length && y < parent.Length
    modifies parent
    ensures Forest(parent[..], level') && Groups(parent[..], level', links + {(x, y)})
  {
    hide Groups;
    level' := level;
    ghost var p0 := parent[..];
    var ra := Find(parent, level, x);
    KeptGroups(p0, parent[..], level, links);
    ghost var p1 := parent[..];
    var rb := Find(parent, level, y);
    ghost var p := parent[..];
    KeptGroups(p1, p, level, links);
    assert Root(p, level, x) == ra && Root(p, level, y) == rb;
    UnionGroups(p, level, links, x, y);
    if ra != rb {
      parent[ra] := rb;
      level' := Raised(p, level, ra, rb);
      assert parent[..] == p[ra := rb];
    }
  }

  // ---- counting ----------------------------------------------------------

  predicate FacesOk(n: nat, faces: seq<seq<nat>>) {
    forall f, v :: 0 <= f < |faces| && v in faces[f] ==> v < n
  }

  /** The first `f` faces are joined: the links stay within shared faces and reach every vertex from the first one
      of its face. */
  predicate Joined(faces: seq<seq<nat>>, f: nat, links: Links)
    requires f <= |faces|
  {
    && links <= SharedFace(faces)
    && forall g, k :: 0 <= g < f && 1 <= k < |faces[g]| ==> (faces[g][0], faces[g][k]) in links
  }

  /** Joining every vertex of a face to its first one connects what sharing a face connects. */
  lemma JoinedConnects(faces: seq<seq<nat>>, links: Links, a: nat, b: nat)
    requires Joined(faces, |faces|, links)
    ensures Connected(links, a, b) <==> Connected(SharedFace(faces), a, b)
  {
    forall x, y | Adjacent(links, x, y) ensures Connected(SharedFace(faces), x, y) {
      OneStep(SharedFace(faces), x, y);
    }
    forall x, y | Adjacent(SharedFace(faces), x, y) ensures Connected(links, x, y) {
      var f :| 0 <= f < |faces| && x in faces[f] && y in faces[f];
      FromFirst(faces, links, f, x);
      FromFirst(faces, links, f, y);
      Symmetric(links, faces[f][0], x);
      Transitive(links, x, faces[f][0], y);
    }
    SameConnected(links, SharedFace(faces), a, b);
  }

  lemma FromFirst(faces: seq<seq<nat>>, links: Links, f: nat, x: nat)
    requires Joined(faces, |faces|, links) && f < |faces| && x in faces[f]
    ensures Connected(links, faces[f][0], x)
  {
    var k :| 0 <= k < |faces[f]| && faces[f][k] == x;
    if k == 0 { Reflexive(links, x); } else { OneStep(links, faces[f][0], x); }
  }

  predicate Alike<S(==), T(==)>(f: seq<S>, g: seq<T>) {
    |f| == |g| && forall i, j :: 0 <= i < |f| && 0 <= j < |f| ==> (f[i] == f[j] <==> g[i] == g[j])
  }

  lemma AlikeFront<S, T>(f: seq<S>, g: seq<T>, m: nat)
    requires Alike(f, g) && m < |f|
    ensures Alike(f[..m], g[..m]) && (f[m] in f[..m] <==> g[m] in g[..m])
  {
    if f[m] in f[..m] {
      var i :| 0 <= i < m && f[..m][i] == f[m];
      assert g[..m][i] == g[m];
    }
    if g[m] in g[..m] {
      var i :| 0 <= i < m && g[..m][i] == g[m];
      assert f[..m][i] == f[m];
    }
  }

  /** Two ways of labelling that agree on which vertices are alike use equally many labels. */
  lemma {:induction false} SameKernel<S, T>(f: seq<S>, g: seq<T>)
    requires Alike(f, g)
    ensures |Elements(f)| == |Elements(g)|
    decreases |f|
  {
    hide Alike;
    SameLength(f, g);
    if f != [] {
      var m := |f| - 1;
      AlikeFront(f, g, m);
      SameKernel(f[..m], g[..m]);
      ElementsLast(f);
      ElementsLast(g);
    } else {
      assert Elements(f) == {} && Elements(g) == {};
    }
  }

  lemma SameLength<S, T>(f: seq<S>, g: seq<T>)
    requires Alike(f, g)
    ensures |f| == |g|
  {
  }

  /** A last element adds to the count exactly when it is new. */
  lemma ElementsLast<T>(s: seq<T>)
    requires s != []
    ensures |Elements(s)| == |Elements(s[..|s| - 1])| + (if s[|s| - 1] in s[..|s| - 1] then 0 else 1)
  {
    assert s == s[..|s| - 1] + [s[|s| - 1]];
    ElementsNext(s[..|s| - 1], s[|s| - 1]);
  }

  lemma SameComponent(n: nat, links: Links, i: nat, j: nat)
    requires i < n && j < n
    ensures Connected(links, i, j) <==> ComponentOf(n, links, i) == ComponentOf(n, links, j)
  {
    Reflexive(links, i);
    Reflexive(links, j);
    if Connected(links, i, j) {
      Symmetric(links, i, j);
      forall b | 0 <= b < n ensures Connected(links, i, b) <==> Connected(links, j, b) {
        if Connected(links, i, b) { Transitive(links, j, i, b); }
        if Connected(links, j, b) { Transitive(links, i, j, b); }
      }
    } else {
      assert j in ComponentOf(n, links, j) && j !in ComponentOf(n, links, i);
    }
  }

  /** As many roots as components. */
  lemma RootsCount(n: nat, faces: seq<seq<nat>>, p: seq<nat>, level: seq<nat>, links: Links, roots: seq<nat>)
    requires |p| == n && Forest(p, level) && Groups(p, level, links) && Joined(faces, |faces|, links)
    requires |roots| == n && forall i :: 0 <= i < n ==> roots[i] == Root(p, level, i)
    ensures |Elements(roots)| == |Components(n, SharedFace(faces))|
  {
    hide Connected, ComponentOf, Joined;
    var g := seq(n, i requires 0 <= i < n => ComponentOf(n, SharedFace(faces), i));
    forall i, j | 0 <= i < n && 0 <= j < n ensures roots[i] == roots[j] <==> g[i] == g[j] {
      JoinedConnects(faces, links, i, j);
      SameComponent(n, SharedFace(faces), i, j);
    }
    SameKernel(roots, g);
    forall c ensures c in Elements(g) <==> c in Components(n, SharedFace(faces)) {
      if c in Components(n, SharedFace(faces)) {
        var a :| 0 <= a < n && c == ComponentOf(n, SharedFace(faces), a);
        assert g[a] == c;
      }
    }
    assert Elements(g) == Components(n, SharedFace(faces));
  }

  lemma ElementsNone()
    ensures Elements<nat>([]) == {}
  {
  }

  /** Joins all vertices of every face. */
  method JoinFaces(parent: array<nat>, faces: seq<seq<nat>>) returns (ghost level: seq<nat>, ghost links: Links)
    requires FacesOk(parent.Length, faces) && forall i :: 0 <= i < parent.Length ==> parent[i] == i
    requires forall f :: 0 <= f < |faces| ==> faces[f] != []
    modifies parent
    ensures Forest(parent[..], level) && Groups(parent[..], level, links) && Joined(faces, |faces|, links)
  {
    hide Groups;
    var n := parent.Length;
    level, links := seq(n, _ => 0), {};
    LoneGroups(n);
    assert parent[..] == seq(n, i requires 0 <= i < n => i);
    for f := 0 to |faces|
      invariant Forest(parent[..], level) && Groups(parent[..], level, links) && Joined(faces, f, links)
    {
      var face := faces[f];
      var root := face[0];
      for k := 1 to |face|
        invariant Forest(parent[..], level) && Groups(parent[..], level, links) && Joined(faces, f, links)
        invariant forall m :: 1 <= m < k ==> (root, face[m]) in links
      {
        assert root in face && face[k] in face;
        level := Union(parent, level, links, root, face[k]);
        links := links + {(root, face[k])};
      }
    }
  }

  /** The number of parts of a mesh; a mesh without vertices has no answer. */
  method MeshComponentCount(n: nat, faces: seq<seq<nat>>) returns (count: Option<nat>)
    requires FacesOk(n, faces) && forall f :: 0 <= f < |faces| ==> faces[f] != []
    ensures count == if n == 0 then None else Some(|Components(n, SharedFace(faces))|)
  {
    hide Elements, Groups, Joined, Components, SharedFace;
    if n == 0 { return None; }
    var parent := new nat[n](i => i);
    ghost var level, links;
    level, links := JoinFaces(parent, faces);
    ghost var p := parent[..];
    var roots: set<nat>;
    ghost var found: seq<nat>;
    roots, found := CollectRoots(parent, level);
    RootsCount(n, faces, p, level, links, found);
    count := Some(|roots|);
  }

  /** The roots of all vertices. */
  method CollectRoots(parent: array<nat>, ghost level: seq<nat>) returns (roots: set<nat>, ghost found: seq<nat>)
    requires Forest(parent[..], level)
    modifies parent
    ensures roots == Elements(found) && |found| == parent.Length
    ensures forall i :: 0 <= i < |found| ==> found[i] == Root(old(parent[..]), level, i)
  {
    hide Elements;
    ElementsNone();
    roots, found := {}, [];
    for i := 0 to parent.Length
      invariant Forest(parent[..], level) && SameRoots(old(parent[..]), parent[..], level)
      invariant |found| == i && forall j :: 0 <= j < i ==> found[j] == Root(old(parent[..]), level, j)
      invariant roots == Elements(found)
    {
      var r := Find(parent, level, i);
      ElementsNext(found, r);
      roots, found := roots + {r}, found + [r];
    }
  }
}
