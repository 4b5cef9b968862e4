/** Proof explanation: a depth-limited search of a derivation graph that may be
    cyclic, memoised on the depth that remained (pkg/engine/explain.go). */
module Explain {
  import opened Order
  import opened Facts
  import opened Soundness
  import opened Runtime
  import M = Machine

  /** A node's kind and details, from the answer about its atom. */
  datatype NodeKind = OfResolution(source: Str) | OfContradiction | OfDerivation | OfBelief(truth: M.Truth) | OfNothing

  datatype ProofNode = ProofNode(id: Str, kind: NodeKind, atom: Atom)

  /** An edge of kind "premise", the only kind there is. */
  datatype ProofEdge = ProofEdge(from: Str, to: Str, rule: Str)

  datatype ProofGraph = ProofGraph(root: Str, nodes: seq<ProofNode>, edges: seq<ProofEdge>)

  function KindOf(truth: M.Truth, proof: M.Proof): NodeKind
  {
    if truth == M.Both then OfContradiction else
      match proof
      case ByResolution(source) => OfResolution(source)
      case Contradiction => OfContradiction
      case Derived(_) => OfDerivation
      case ByBelief => OfBelief(truth)
      case NoEvidence => OfNothing
  }

  ghost function NodeOf(st: M.State, a: Atom): ProofNode
  {
    var (truth, proof) := M.Evaluate(st, a);
    ProofNode(AtomKey(a), KindOf(truth, proof), a)
  }

  function NodeOrder(n: ProofNode): Key { [n.id] }

  function EdgeOrder(e: ProofEdge): Key { [e.from, e.to, e.rule] }

  // ---------- the graph that is explained

  /** `p` is a premise of a recorded derivation of `a` by `rule`. */
  ghost predicate Link(ds: M.Derivations, a: Atom, p: Atom, rule: Str)
  {
    exists d :: d in M.ProofsOf(ds, a) && d.rule == rule && p in d.premises
  }

  /** `x` is `n` premise hops away from `root`. */
  ghost predicate Hops(ds: M.Derivations, root: Atom, x: Atom, n: nat)
    decreases n
  {
    if n == 0 then x == root
    else exists y, rule :: Hops(ds, root, y, n - 1) && Link(ds, y, x, rule)
  }

  ghost predicate WithinHops(ds: M.Derivations, root: Atom, x: Atom, depth: int)
  {
    exists n: nat :: n <= depth && Hops(ds, root, x, n)
  }

  /** `n` is the length of a shortest path. */
  ghost predicate Distance(ds: M.Derivations, root: Atom, x: Atom, n: nat)
  {
    Hops(ds, root, x, n) && forall m: nat :: m < n ==> !Hops(ds, root, x, m)
  }

  /** Node ids keep the atoms of the graph apart. */
  ghost predicate CleanPremises(ds: M.Derivations)
  {
    forall a, p, rule :: Link(ds, a, p, rule) ==> CleanAtom(p)
  }

  function EdgeOf(a: Atom, p: Atom, rule: Str): ProofEdge { ProofEdge(AtomKey(a), AtomKey(p), rule) }

  // ---------- what the search maintains, on values

  type Levels = map<Atom, nat>

  /** Every level is the depth left on some path from the root. */
  ghost predicate OnPaths(ds: M.Derivations, root: Atom, depth: nat, level: Levels)
  {
    forall x :: x in level ==> CleanAtom(x) && level[x] <= depth && Hops(ds, root, x, depth - level[x])
  }

  /** All links of `x` are followed and drawn. */
  ghost predicate Done(ds: M.Derivations, level: Levels, edges: seq<ProofEdge>, x: Atom)
    requires x in level
  {
    level[x] > 0 ==> forall p, rule :: Link(ds, x, p, rule) ==>
      p in level && level[p] >= level[x] - 1 && EdgeOf(x, p, rule) in edges
  }

  /** Only links of atoms with depth left are drawn. */
  ghost predicate DrawnAreLinks(ds: M.Derivations, level: Levels, edges: seq<ProofEdge>)
  {
    forall e :: e in edges ==> exists x, p, rule :: x in level && level[x] > 0 && Link(ds, x, p, rule) && e == EdgeOf(x, p, rule)
  }

  ghost predicate Raised(before: Levels, after: Levels)
  {
    forall x :: x in before ==> x in after && after[x] >= before[x]
  }

  /** Newly found, or found again with more depth left. */
  ghost predicate Changed(before: Levels, after: Levels, x: Atom)
    requires x in after
  {
    x !in before || after[x] != before[x]
  }

  /** A search from `before` to `after` with at most depth `d`: whatever changed is done. */
  ghost predicate Explored(ds: M.Derivations, before: Levels, after: Levels, edges: seq<ProofEdge>, d: nat)
  {
    Raised(before, after) && forall x :: x in after && Changed(before, after, x) ==> after[x] <= d && Done(ds, after, edges, x)
  }

  lemma DoneStays(ds: M.Derivations, before: Levels, after: Levels, drawn: seq<ProofEdge>,
        edges: seq<ProofEdge>, x: Atom)
    requires x in before && Done(ds, before, drawn, x) && Raised(before, after) && drawn <= edges
    requires x in after && after[x] == before[x]
    ensures Done(ds, after, edges, x)
  {
  }

  /** As `Explored`, while the links of `a` are still being followed. */
  ghost predicate Exploring(ds: M.Derivations, before: Levels, after: Levels, edges: seq<ProofEdge>, a: Atom, d: nat)
  {
    && Raised(before, after) && a in after && after[a] == d
    && forall x :: x in after && x != a && Changed(before, after, x) ==> after[x] <= d && Done(ds, after, edges, x)
  }

  /** A search below `a` leaves the level of `a` alone and adds to what is explored. */
  lemma ExploredMore(ds: M.Derivations, s: Levels, t: Levels, u: Levels, drawn: seq<ProofEdge>,
        edges: seq<ProofEdge>, a: Atom, d: nat)
    requires d > 0 && drawn <= edges
    requires Exploring(ds, s, t, drawn, a, d) && Explored(ds, t, u, edges, d - 1)
    ensures Exploring(ds, s, u, edges, a, d)
  {
    assert !Changed(t, u, a);
    forall x | x in u && x != a && Changed(s, u, x) ensures u[x] <= d && Done(ds, u, edges, x) {
      if !Changed(t, u, x) { DoneStays(ds, t, u, drawn, edges, x); }
    }
  }

  lemma DrawnStay(ds: M.Derivations, before: Levels, after: Levels, edges: seq<ProofEdge>)
    requires DrawnAreLinks(ds, before, edges) && Raised(before, after)
    ensures DrawnAreLinks(ds, after, edges)
  {
    forall e | e in edges
      ensures exists x, p, rule :: x in after && after[x] > 0 && Link(ds, x, p, rule) && e == EdgeOf(x, p, rule)
    {
      var x, p, rule :| x in before && before[x] > 0 && Link(ds, x, p, rule) && e == EdgeOf(x, p, rule);
      assert x in after && after[x] > 0;
    }
  }

  // ---------- exactness of a finished search

  ghost predicate Finished(ds: M.Derivations, root: Atom, depth: nat, level: Levels, edges: seq<ProofEdge>)
  {
    && OnPaths(ds, root, depth, level) && DrawnAreLinks(ds, level, edges)
    && root in level && level[root] >= depth
    && forall x :: x in level ==> Done(ds, level, edges, x)
  }

  lemma {:induction false} PathsAreFollowed(ds: M.Derivations, root: Atom, depth: nat, level: Levels,
        edges: seq<ProofEdge>, x: Atom, n: nat)
    requires Finished(ds, root, depth, level, edges) && n <= depth && Hops(ds, root, x, n)
    ensures x in level && level[x] >= depth - n
    decreases n
  {
    if n > 0 {
      var y, rule :| Hops(ds, root, y, n - 1) && Link(ds, y, x, rule);
      PathsAreFollowed(ds, root, depth, level, edges, y, n - 1);
      assert Done(ds, level, edges, y);
    }
  }

  /** The levels are the depth minus the shortest distance, and they are known
      exactly for the atoms within the depth. */
  lemma LevelsAreDistances(ds: M.Derivations, root: Atom, depth: nat, level: Levels, edges: seq<ProofEdge>, x: Atom)
    requires Finished(ds, root, depth, level, edges)
    ensures x in level <==> WithinHops(ds, root, x, depth)
    ensures x in level ==> level[x] <= depth && Distance(ds, root, x, depth - level[x])
  {
    if n: nat :| n <= depth && Hops(ds, root, x, n) {
      PathsAreFollowed(ds, root, depth, level, edges, x, n);
    }
    if x in level {
      forall m: nat | m < depth - level[x] ensures !Hops(ds, root, x, m) {
        if Hops(ds, root, x, m) {
          PathsAreFollowed(ds, root, depth, level, edges, x, m);
          assert false;
        }
      }
    }
  }

  /** The edges drawn are all links that leave atoms within one hop less than the depth. */
  lemma EdgesAreLinks(ds: M.Derivations, root: Atom, depth: nat, level: Levels, edges: seq<ProofEdge>, e: ProofEdge)
    requires Finished(ds, root, depth, level, edges)
    ensures e in edges <==>
            exists x, p, rule :: WithinHops(ds, root, x, depth - 1) && Link(ds, x, p, rule) && e == EdgeOf(x, p, rule)
  {
    if e in edges {
      var x, p, rule :| x in level && level[x] > 0 && Link(ds, x, p, rule) && e == EdgeOf(x, p, rule);
      assert Hops(ds, root, x, depth - level[x]);
      assert WithinHops(ds, root, x, depth - 1);
    }
    if exists x, p, rule :: WithinHops(ds, root, x, depth - 1) && Link(ds, x, p, rule) && e == EdgeOf(x, p, rule) {
      var x, p, rule :| WithinHops(ds, root, x, depth - 1) && Link(ds, x, p, rule) && e == EdgeOf(x, p, rule);
      var n: nat :| n <= depth - 1 && Hops(ds, root, x, n);
      PathsAreFollowed(ds, root, depth, level, edges, x, n);
      assert Done(ds, level, edges, x);
    }
  }

  // ---------- the search itself

  /** The premises before position (i, j) of a list of derivations are followed. */
  ghost predicate Followed(ders: seq<M.DerivationProof>, i: nat, j: nat, a: Atom, d: nat, level: Levels,
        edges: seq<ProofEdge>)
  {
    forall m, k :: 0 <= m < |ders| && 0 <= k < |ders[m].premises| && (m < i || (m == i && k < j)) ==>
      var p := ders[m].premises[k];
      p in level && level[p] >= d - 1 && EdgeOf(a, p, ders[m].rule) in edges
  }

  lemma FollowedStays(ders: seq<M.DerivationProof>, i: nat, j: nat, a: Atom, d: nat, t: Levels, u: Levels,
        drawn: seq<ProofEdge>, edges: seq<ProofEdge>)
    requires Followed(ders, i, j, a, d, t, drawn) && Raised(t, u) && drawn <= edges
    ensures Followed(ders, i, j, a, d, u, edges)
  {
  }

  lemma FollowedOne(ders: seq<M.DerivationProof>, i: nat, j: nat, a: Atom, d: nat, level: Levels, edges: seq<ProofEdge>)
    requires i < |ders| && j < |ders[i].premises| && Followed(ders, i, j, a, d, level, edges)
    requires ders[i].premises[j] in level && level[ders[i].premises[j]] >= d - 1
    requires EdgeOf(a, ders[i].premises[j], ders[i].rule) in edges
    ensures Followed(ders, i, j + 1, a, d, level, edges)
  {
  }

  lemma ALink(ds: M.Derivations, a: Atom, i: nat, j: nat)
    requires i < |M.ProofsOf(ds, a)| && j < |M.ProofsOf(ds, a)[i].premises|
    ensures Link(ds, a, M.ProofsOf(ds, a)[i].premises[j], M.ProofsOf(ds, a)[i].rule)
  {
  }

  lemma FollowedNone(ders: seq<M.DerivationProof>, a: Atom, d: nat, level: Levels, edges: seq<ProofEdge>)
    ensures Followed(ders, 0, 0, a, d, level, edges)
  {
  }

  lemma FollowedRow(ders: seq<M.DerivationProof>, i: nat, a: Atom, d: nat, level: Levels, edges: seq<ProofEdge>)
    requires i < |ders| && Followed(ders, i, |ders[i].premises|, a, d, level, edges)
    ensures Followed(ders, i + 1, 0, a, d, level, edges)
  {
  }

  lemma FollowedAll(ds: M.Derivations, a: Atom, d: nat, before: Levels, level: Levels, edges: seq<ProofEdge>)
    requires Exploring(ds, before, level, edges, a, d)
    requires Followed(M.ProofsOf(ds, a), |M.ProofsOf(ds, a)|, 0, a, d, level, edges)
    ensures Explored(ds, before, level, edges, d)
  {
    forall p, rule | Link(ds, a, p, rule) ensures p in level && level[p] >= d - 1 && EdgeOf(a, p, rule) in edges {
      var der :| der in M.ProofsOf(ds, a) && der.rule == rule && p in der.premises;
      var m :| 0 <= m < |M.ProofsOf(ds, a)| && M.ProofsOf(ds, a)[m] == der;
      var k :| 0 <= k < |der.premises| && der.premises[k] == p;
    }
    assert Done(ds, level, edges, a);
  }

  /** The maps are keyed by the keys of the atoms that have a level. */
  ghost predicate Keyed(view: M.State, nodes: map<Str, ProofNode>, seen: map<Str, int>, level: Levels)
  {
    && (forall x :: x in level ==> CleanAtom(x))
    && (forall x :: x in level ==> AtomKey(x) in seen && seen[AtomKey(x)] == level[x])
    && (forall x :: x in level ==> AtomKey(x) in nodes && nodes[AtomKey(x)] == NodeOf(view, x))
    && (forall key :: key in seen || key in nodes ==> exists x :: x in level && AtomKey(x) == key)
  }

  lemma SeenIsLevel(view: M.State, nodes: map<Str, ProofNode>, seen: map<Str, int>, level: Levels, a: Atom)
    requires Keyed(view, nodes, seen, level) && CleanAtom(a)
    ensures forall x :: x in level && AtomKey(x) == AtomKey(a) ==> x == a
    ensures AtomKey(a) in seen <==> a in level
    ensures AtomKey(a) in nodes <==> a in level
    ensures a in level ==> seen[AtomKey(a)] == level[a]
  {
    hide AtomKey, CleanAtom, NodeOf;
    forall x | x in level && AtomKey(x) == AtomKey(a) ensures x == a { AtomKeyInjective(x, a); }
  }

  lemma KeyedEnter(view: M.State, nodes: map<Str, ProofNode>, seen: map<Str, int>, level: Levels, a: Atom, d: nat)
    requires Keyed(view, nodes, seen, level) && CleanAtom(a)
    ensures Keyed(view, if AtomKey(a) in nodes then nodes else nodes[AtomKey(a) := NodeOf(view, a)], seen[AtomKey(a) := d], level[a := d])
  {
    hide NodeOf, AtomKey, CleanAtom;
    SeenIsLevel(view, nodes, seen, level, a);
    var level' := level[a := d];
    forall key | key in seen || key in nodes || key == AtomKey(a) ensures exists x :: x in level' && AtomKey(x) == key {
      if key != AtomKey(a) {
        var x :| x in level && AtomKey(x) == key;
        assert x in level';
      } else {
        assert a in level';
      }
    }
  }

  /** What the search keeps about its levels and the edges it has drawn. */
  ghost predicate Searched(ds: M.Derivations, root: Atom, depth: nat, level: Levels, edges: seq<ProofEdge>)
  {
    OnPaths(ds, root, depth, level) && DrawnAreLinks(ds, level, edges)
  }

  lemma SearchedEnter(ds: M.Derivations, root: Atom, depth: nat, level: Levels, edges: seq<ProofEdge>, a: Atom, d: nat)
    requires Searched(ds, root, depth, level, edges) && (a in level ==> level[a] < d)
    requires CleanAtom(a) && d <= depth && Hops(ds, root, a, depth - d)
    ensures Searched(ds, root, depth, level[a := d], edges)
    ensures Exploring(ds, level, level[a := d], edges, a, d)
    ensures d == 0 ==> Explored(ds, level, level[a := d], edges, d)
  {
    hide Hops;
    DrawnStay(ds, level, level[a := d], edges);
  }

  lemma SearchedDraw(ds: M.Derivations, root: Atom, depth: nat, level: Levels, edges: seq<ProofEdge>, a: Atom,
        p: Atom, rule: Str)
    requires Searched(ds, root, depth, level, edges) && CleanPremises(ds)
    requires a in level && level[a] > 0 && Link(ds, a, p, rule)
    ensures Searched(ds, root, depth, level, edges + [EdgeOf(a, p, rule)])
    ensures CleanAtom(p) && level[a] <= depth && Hops(ds, root, p, depth - (level[a] - 1))
  {
    assert Hops(ds, root, a, depth - level[a]);
  }

  /** The variables that `visit` shares between its calls (explain.go:39-43). */
  class ProofSearch {
    const engine: Engine
    ghost const view: M.State
    ghost const root: Atom
    ghost const depth: nat
    var nodes: map<Str, ProofNode>
    var edges: seq<ProofEdge>
    var seen: map<Str, int>
    ghost var level: Levels

    /** The engine that is searched does not change meanwhile. */
    ghost predicate Watching()
      reads this, engine, engine.beliefs, engine.graph, engine.log
    {
      engine.Valid() && engine.View() == view && CleanPremises(view.derivations)
    }

    ghost predicate Valid()
      reads this, engine, engine.beliefs, engine.graph, engine.log
    {
      && Watching()
      && Keyed(view, nodes, seen, level)
      && Searched(view.derivations, root, depth, level, edges)
    }

    constructor (engine: Engine, ghost root: Atom, ghost depth: nat)
      requires engine.Valid() && CleanPremises(engine.derivations)
      ensures Valid() && level == map[] && edges == []
      ensures this.engine == engine && this.root == root && this.depth == depth && view == engine.View()
    {
      this.engine, view := engine, engine.View();
      this.root, this.depth := root, depth;
      nodes, edges, seen, level := map[], [], map[], map[];
    }

    method NodeFor(a: Atom) returns (n: ProofNode)
      requires Watching()
      ensures n == NodeOf(view, a)
    {
      hide M.Evaluate, Engine.Valid;
      var v, pf := engine.Evaluate(a);
      n := ProofNode(AtomKey(a), KindOf(v, pf), a);
    }

    /** `visit` up to the links (explain.go:49-58): `a` gets its level and a node. */
    method Enter(a: Atom, d: nat)
      requires Valid() && CleanAtom(a) && d <= depth && Hops(view.derivations, root, a, depth - d)
      requires a in level ==> level[a] < d
      modifies this
      ensures Valid() && edges == old(edges) && level == old(level)[a := d]
      ensures Exploring(view.derivations, old(level), level, edges, a, d)
      ensures d == 0 ==> Explored(view.derivations, old(level), level, edges, d)
    {
      hide Hops, Keyed, Searched, Exploring, Explored, NodeOf, AtomKey, CleanAtom, Engine.Valid, Engine.View, CleanPremises;
      KeyedEnter(view, nodes, seen, level, a, d);
      SearchedEnter(view.derivations, root, depth, level, edges, a, d);
      var id := AtomKey(a);
      if id !in nodes {
        var n := NodeFor(a);
        nodes := nodes[id := n];
      }
      seen := seen[id := d];
      level := level[a := d];
    }

    /** `visit` (explain.go:44-71). */
    method Visit(a: Atom, d: nat)
      requires Valid() && CleanAtom(a) && d <= depth && Hops(view.derivations, root, a, depth - d)
      modifies this
      ensures Valid() && old(edges) <= edges
      ensures a in level && level[a] >= d
      ensures Explored(view.derivations, old(level), level, edges, d)
      decreases d, 1
    {
      hide Hops, Keyed, Searched, Link, Done, Followed, AtomKey, CleanAtom, Engine.Valid;
      SeenIsLevel(view, nodes, seen, level, a);
      var id := AtomKey(a);
      if id in seen && seen[id] >= d {
        return;
      }
      Enter(a, d);
      if d <= 0 {
        return;
      }
      FollowAll(a, d, old(level));
    }

    /** The loops of `visit` (explain.go:64-70). */
    method FollowAll(a: Atom, d: nat, ghost before: Levels)
      requires Valid() && 0 < d && Exploring(view.derivations, before, level, edges, a, d)
      modifies this
      ensures Valid() && old(edges) <= edges
      ensures a in level && level[a] == d
      ensures Explored(view.derivations, before, level, edges, d)
      decreases d, 0
    {
      hide Hops, Keyed, Searched, Link, Done, Followed, AtomKey, CleanAtom, Engine.Valid, M.ProofsOf;
      var ders := M.ProofsOf(engine.derivations, a);
      FollowedNone(ders, a, d, level, edges);
      assert ders == M.ProofsOf(view.derivations, a);
      var i := 0;
      while i < |ders|
        invariant i <= |ders| && Valid() && old(edges) <= edges
        invariant Exploring(view.derivations, before, level, edges, a, d)
        invariant Followed(ders, i, 0, a, d, level, edges)
      {
        var j := 0;
        while j < |ders[i].premises|
          invariant j <= |ders[i].premises| && Valid() && old(edges) <= edges
          invariant Exploring(view.derivations, before, level, edges, a, d)
          invariant Followed(ders, i, j, a, d, level, edges)
        {
          Follow(ders, i, j, a, d, before);
          j := j + 1;
        }
        FollowedRow(ders, i, a, d, level, edges);
        i := i + 1;
      }
      FollowedAll(view.derivations, a, d, before, level, edges);
    }

    /** The body of the inner loop (explain.go:66-68). */
    method Follow(ders: seq<M.DerivationProof>, i: nat, j: nat, a: Atom, d: nat, ghost before: Levels)
      requires Valid() && 0 < d && Exploring(view.derivations, before, level, edges, a, d)
      requires ders == M.ProofsOf(view.derivations, a)
      requires i < |ders| && j < |ders[i].premises| && Followed(ders, i, j, a, d, level, edges)
      modifies this
      ensures Valid() && old(edges) <= edges
      ensures Exploring(view.derivations, before, level, edges, a, d)
      ensures Followed(ders, i, j + 1, a, d, level, edges)
      decreases d - 1, 2
    {
      hide Hops, Keyed, Searched, Link, Done, Followed, CleanAtom, CleanPremises, Engine.Valid, Engine.View, M.ProofsOf;
      var p, rule := ders[i].premises[j], ders[i].rule;
      ALink(view.derivations, a, i, j);
      SearchedDraw(view.derivations, root, depth, level, edges, a, p, rule);
      ghost var t, drawn := level, edges;
      edges := edges + [EdgeOf(a, p, rule)];
      Visit(p, d - 1);
      ExploredMore(view.derivations, before, t, level, drawn, edges, a, d);
      FollowedStays(ders, i, j, a, d, t, level, drawn, edges);
      assert edges[|drawn|] == EdgeOf(a, p, rule);
      FollowedOne(ders, i, j, a, d, level, edges);
    }
  }

  /** Equal keys mean equal edges, so any sort leaves the edges in the same order. */
  lemma EdgeOrderInjective(edges: seq<ProofEdge>)
    ensures Injective(edges, EdgeOrder)
  {
    forall e, f | e in edges && f in edges && EdgeOrder(e) == EdgeOrder(f) ensures e == f {
      assert EdgeOrder(e)[0] == EdgeOrder(f)[0] && EdgeOrder(e)[1] == EdgeOrder(f)[1] && EdgeOrder(e)[2] == EdgeOrder(f)[2];
    }
  }

  lemma OneEdgeOrder(es: seq<ProofEdge>, fs: seq<ProofEdge>)
    requires Sorted(es, EdgeOrder) && Sorted(fs, EdgeOrder) && multiset(es) == multiset(fs)
    ensures es == fs
  {
    EdgeOrderInjective(es);
    SortUnique(es, fs, EdgeOrder);
  }

  /** The list of the nodes, sorted by id (explain.go:75-79). */
  method ListNodes(nodes: map<Str, ProofNode>) returns (list: seq<ProofNode>)
    requires forall id :: id in nodes ==> nodes[id].id == id
    ensures Ascending(list, NodeOrder)
    ensures forall n :: n in list <==> n.id in nodes && nodes[n.id] == n
  {
    var ids := Range(nodes.Keys);
    var all: seq<ProofNode> := [];
    for i := 0 to |ids|
      invariant |all| == i && forall k :: 0 <= k < i ==> all[k] == nodes[ids[k]]
    {
      all := all + [nodes[ids[i]]];
    }
    NodesOfIds(nodes, ids, all);
    NodesInjective(nodes, all);
    SortAscends(all, NodeOrder);
    list := Sort(all, NodeOrder);
  }

  /** The nodes of distinct ids: each node once, and the id tells them apart. */
  lemma NodesOfIds(nodes: map<Str, ProofNode>, ids: seq<Str>, all: seq<ProofNode>)
    requires forall id :: id in nodes ==> nodes[id].id == id
    requires forall id :: id in ids <==> id in nodes
    requires forall i, j :: 0 <= i < j < |ids| ==> ids[i] != ids[j]
    requires |all| == |ids| && forall k :: 0 <= k < |ids| ==> all[k] == nodes[ids[k]]
    ensures forall n :: n in all <==> n.id in nodes && nodes[n.id] == n
    ensures forall i, j :: 0 <= i < j < |all| ==> all[i] != all[j]
  {
    assert forall k :: 0 <= k < |ids| ==> ids[k] in ids && all[k].id == ids[k];
    forall n: ProofNode | n.id in nodes && nodes[n.id] == n ensures n in all {
      var k :| 0 <= k < |ids| && ids[k] == n.id;
      assert all[k] == n;
    }
  }

  lemma NodesInjective(nodes: map<Str, ProofNode>, all: seq<ProofNode>)
    requires forall n :: n in all <==> n.id in nodes && nodes[n.id] == n
    ensures Injective(all, NodeOrder)
  {
    forall x, y | x in all && y in all && NodeOrder(x) == NodeOrder(y) ensures x == y {
      assert NodeOrder(x)[0] == NodeOrder(y)[0];
    }
  }

  lemma NodesHaveIds(view: M.State, nodes: map<Str, ProofNode>, seen: map<Str, int>, level: Levels)
    requires Keyed(view, nodes, seen, level)
    ensures forall id :: id in nodes ==> nodes[id].id == id
  {
  }

  /** The nodes stand for exactly the atoms that have a level. */
  lemma NodesAreLevels(view: M.State, nodes: map<Str, ProofNode>, seen: map<Str, int>, level: Levels, n: ProofNode)
    requires Keyed(view, nodes, seen, level)
    ensures n.id in nodes && nodes[n.id] == n <==> exists x :: x in level && n == NodeOf(view, x)
  {
    if n.id in nodes && nodes[n.id] == n {
      var x :| x in level && AtomKey(x) == n.id;
      assert n == NodeOf(view, x);
    }
  }

  /** The nodes are those of the atoms within `depth` hops. */
  ghost predicate NodesExact(view: M.State, root: Atom, depth: nat, nodes: seq<ProofNode>)
  {
    forall n :: n in nodes <==> exists x :: WithinHops(view.derivations, root, x, depth) && n == NodeOf(view, x)
  }

  /** The edges are the links that leave atoms within one hop less. */
  ghost predicate EdgesExact(ds: M.Derivations, root: Atom, depth: nat, edges: seq<ProofEdge>)
  {
    forall e :: e in edges <==> LinkDrawn(ds, root, depth, e)
  }

  ghost predicate LinkDrawn(ds: M.Derivations, root: Atom, depth: nat, e: ProofEdge)
  {
    exists x, p, rule :: WithinHops(ds, root, x, depth - 1) && Link(ds, x, p, rule) && e == EdgeOf(x, p, rule)
  }

  /** What is remembered of an atom is the depth minus its shortest distance. */
  ghost predicate SeenExact(ds: M.Derivations, root: Atom, depth: nat, seen: map<Str, int>)
  {
    forall x :: WithinHops(ds, root, x, depth) ==>
      AtomKey(x) in seen && 0 <= seen[AtomKey(x)] <= depth && Distance(ds, root, x, depth - seen[AtomKey(x)])
  }

  // ---------- what a reader of the graph sees

  /** `to` is reached from `from` along `n` edges, each from its `from` to its `to`. */
  ghost predicate Walk(edges: seq<ProofEdge>, from: Str, to: Str, n: nat)
    decreases n
  {
    if n == 0 then from == to else exists e :: e in edges && e.to == to && Walk(edges, from, e.from, n - 1)
  }

  /** The edge leads from an atom to a premise of a derivation recorded for it, by the rule it names. */
  ghost predicate Shows(ds: M.Derivations, e: ProofEdge, a: Atom, d: M.DerivationProof, p: Atom)
  {
    d in M.ProofsOf(ds, a) && p in d.premises && e.from == AtomKey(a) && e.to == AtomKey(p) && e.rule == d.rule
  }

  /** The kind says what the answer about the atom rests on. */
  ghost predicate KindFits(kind: NodeKind, truth: M.Truth, proof: M.Proof)
  {
    && (kind == OfContradiction <==> truth == M.Both)
    && (forall source :: kind == OfResolution(source) <==> proof == M.ByResolution(source))
    && (kind == OfDerivation <==> proof.Derived?)
    && (forall t :: kind == OfBelief(t) <==> proof == M.ByBelief && truth == t)
    && (kind == OfNothing <==> proof == M.NoEvidence)
  }

  lemma KindIs(st: M.State, a: Atom)
    ensures NodeOf(st, a).atom == a && NodeOf(st, a).id == AtomKey(a)
    ensures KindFits(NodeOf(st, a).kind, M.Evaluate(st, a).0, M.Evaluate(st, a).1)
  {
  }

  ghost predicate EdgeBefore(e: ProofEdge, f: ProofEdge)
  {
    ComesBefore(e.from, f.from) || (e.from == f.from && PairBefore(e.to, e.rule, f.to, f.rule))
  }

  lemma EdgeOrderMeans(e: ProofEdge, f: ProofEdge)
    ensures KeyLess(EdgeOrder(e), EdgeOrder(f)) <==> EdgeBefore(e, f)
  {
    hide PairBefore, ComesBefore;
    KeyLessCons(e.from, [e.to, e.rule], f.from, [f.to, f.rule]);
    KeyLessTwo(e.to, e.rule, f.to, f.rule);
    assert [e.from] + [e.to, e.rule] == EdgeOrder(e) && [f.from] + [f.to, f.rule] == EdgeOrder(f);
  }

  lemma ListsInOrder(nodes: seq<ProofNode>, edges: seq<ProofEdge>)
    requires Ascending(nodes, NodeOrder) && Sorted(edges, EdgeOrder)
    ensures forall i, j :: 0 <= i < j < |nodes| ==> ComesBefore(nodes[i].id, nodes[j].id)
    ensures forall i, j :: 0 <= i < j < |edges| ==> !EdgeBefore(edges[j], edges[i])
  {
    hide ComesBefore, EdgeBefore, EdgeOrder, KeyLess;
    forall i, j | 0 <= i < j < |nodes| ensures ComesBefore(nodes[i].id, nodes[j].id) {
      KeyLessOne(nodes[i].id, nodes[j].id);
    }
    forall i, j | 0 <= i < j < |edges| ensures !EdgeBefore(edges[j], edges[i]) { EdgeOrderMeans(edges[j], edges[i]); }
  }

  lemma HopsAreClean(ds: M.Derivations, root: Atom, x: Atom, n: nat)
    requires CleanAtom(root) && CleanPremises(ds) && Hops(ds, root, x, n)
    ensures CleanAtom(x)
  {
  }

  /** Every edge shows a recorded derivation, and those of the atoms within one hop less are all shown. */
  lemma EdgesShow(ds: M.Derivations, root: Atom, depth: nat, edges: seq<ProofEdge>)
    requires EdgesExact(ds, root, depth, edges)
    ensures forall e :: e in edges ==> exists a, d, p :: WithinHops(ds, root, a, depth - 1) && Shows(ds, e, a, d, p)
    ensures forall a, d, p :: WithinHops(ds, root, a, depth - 1) && d in M.ProofsOf(ds, a) && p in d.premises ==>
              ProofEdge(AtomKey(a), AtomKey(p), d.rule) in edges
  {
    hide WithinHops, AtomKey, M.ProofsOf;
    forall e | e in edges ensures exists a, d, p :: WithinHops(ds, root, a, depth - 1) && Shows(ds, e, a, d, p) {
      assert LinkDrawn(ds, root, depth, e);
      var a, p, rule :| WithinHops(ds, root, a, depth - 1) && Link(ds, a, p, rule) && e == EdgeOf(a, p, rule);
      var d :| d in M.ProofsOf(ds, a) && d.rule == rule && p in d.premises;
      assert Shows(ds, e, a, d, p);
    }
    forall a, d, p | WithinHops(ds, root, a, depth - 1) && d in M.ProofsOf(ds, a) && p in d.premises
      ensures ProofEdge(AtomKey(a), AtomKey(p), d.rule) in edges
    {
      assert Link(ds, a, p, d.rule);
      assert LinkDrawn(ds, root, depth, EdgeOf(a, p, d.rule));
    }
  }

  lemma {:induction false} HopsAreWalks(ds: M.Derivations, root: Atom, depth: nat, edges: seq<ProofEdge>, x: Atom, n: nat)
    requires EdgesExact(ds, root, depth, edges) && n <= depth && Hops(ds, root, x, n)
    ensures Walk(edges, AtomKey(root), AtomKey(x), n)
    decreases n
  {
    hide AtomKey, Link;
    if n > 0 {
      var y, rule :| Hops(ds, root, y, n - 1) && Link(ds, y, x, rule);
      HopsAreWalks(ds, root, depth, edges, y, n - 1);
      assert WithinHops(ds, root, y, depth - 1);
      assert LinkDrawn(ds, root, depth, EdgeOf(y, x, rule));
      assert EdgeOf(y, x, rule) in edges;
    }
  }

  lemma {:induction false} WalksAreHops(ds: M.Derivations, root: Atom, depth: nat, edges: seq<ProofEdge>, id: Str, n: nat)
    returns (x: Atom)
    requires EdgesExact(ds, root, depth, edges) && CleanAtom(root) && CleanPremises(ds)
    requires Walk(edges, AtomKey(root), id, n)
    ensures AtomKey(x) == id && Hops(ds, root, x, n) && WithinHops(ds, root, x, depth)
    decreases n
  {
    hide AtomKey, Link, CleanAtom, CleanPremises;
    if n == 0 {
      x := root;
      assert Hops(ds, root, root, 0);
    } else {
      var e :| e in edges && e.to == id && Walk(edges, AtomKey(root), e.from, n - 1);
      assert LinkDrawn(ds, root, depth, e);
      var y, p, rule :| WithinHops(ds, root, y, depth - 1) && Link(ds, y, p, rule) && e == EdgeOf(y, p, rule);
      var z := WalksAreHops(ds, root, depth, edges, e.from, n - 1);
      var k: nat :| k <= depth - 1 && Hops(ds, root, y, k);
      HopsAreClean(ds, root, y, k);
      HopsAreClean(ds, root, z, n - 1);
      AtomKeyInjective(y, z);
      x := p;
      assert Hops(ds, root, p, n) && Hops(ds, root, p, k + 1);
    }
  }

  ghost predicate Reached(g: ProofGraph, id: Str) { exists n: nat :: Walk(g.edges, g.root, id, n) }

  ghost predicate Listed(g: ProofGraph, id: Str) { exists m :: m in g.nodes && m.id == id }

  /** The graph by itself.  From its root, along its edges, just its nodes are
      reached, each in any number of steps up to the limit that it is hops away;
      each edge shows a recorded derivation; each node has its atom's key and the
      kind of its atom's answer; and both lists are in order. */
  ghost predicate Pictures(view: M.State, root: Atom, limit: nat, g: ProofGraph)
  {
    && (forall id :: Reached(g, id) <==> Listed(g, id))
    && (forall m, n: nat {:trigger Walk(g.edges, g.root, m.id, n)} :: m in g.nodes && n <= limit ==>
          (Walk(g.edges, g.root, m.id, n) <==> Hops(view.derivations, root, m.atom, n)))
    && (forall e :: e in g.edges ==> exists a, d, p :: Shows(view.derivations, e, a, d, p))
    && (forall m :: m in g.nodes ==>
          m.id == AtomKey(m.atom) && KindFits(m.kind, M.Evaluate(view, m.atom).0, M.Evaluate(view, m.atom).1))
    && (forall i, j :: 0 <= i < j < |g.nodes| ==> ComesBefore(g.nodes[i].id, g.nodes[j].id))
    && (forall i, j :: 0 <= i < j < |g.edges| ==> !EdgeBefore(g.edges[j], g.edges[i]))
  }

  lemma NodeIsWithin(view: M.State, root: Atom, depth: nat, nodes: seq<ProofNode>, m: ProofNode)
    requires NodesExact(view, root, depth, nodes) && m in nodes
    ensures WithinHops(view.derivations, root, m.atom, depth) && m.id == AtomKey(m.atom)
    ensures KindFits(m.kind, M.Evaluate(view, m.atom).0, M.Evaluate(view, m.atom).1)
  {
    hide NodeOf, KindFits, AtomKey, WithinHops;
    var x :| WithinHops(view.derivations, root, x, depth) && m == NodeOf(view, x);
    KindIs(view, x);
  }

  lemma ReachesTheNodes(view: M.State, root: Atom, depth: nat, g: ProofGraph, id: Str)
    requires CleanAtom(root) && CleanPremises(view.derivations) && g.root == AtomKey(root)
    requires NodesExact(view, root, depth, g.nodes) && EdgesExact(view.derivations, root, depth, g.edges)
    ensures Reached(g, id) <==> Listed(g, id)
  {
    hide AtomKey, CleanAtom, CleanPremises, EdgesExact, NodeOf, Hops, Walk;
    if Reached(g, id) {
      var n: nat :| Walk(g.edges, g.root, id, n);
      var x := WalksAreHops(view.derivations, root, depth, g.edges, id, n);
      KindIs(view, x);
      assert NodeOf(view, x) in g.nodes;
    }
    if Listed(g, id) {
      var m :| m in g.nodes && m.id == id;
      NodeIsWithin(view, root, depth, g.nodes, m);
      var n: nat :| n <= depth && Hops(view.derivations, root, m.atom, n);
      HopsAreWalks(view.derivations, root, depth, g.edges, m.atom, n);
    }
  }

  lemma ExactPictures(view: M.State, root: Atom, depth: nat, g: ProofGraph)
    requires CleanAtom(root) && CleanPremises(view.derivations) && g.root == AtomKey(root)
    requires NodesExact(view, root, depth, g.nodes) && EdgesExact(view.derivations, root, depth, g.edges)
    requires Ascending(g.nodes, NodeOrder) && Sorted(g.edges, EdgeOrder)
    ensures Pictures(view, root, depth, g)
  {
    hide AtomKey, CleanAtom, CleanPremises, NodesExact, EdgesExact, Hops, Walk, KindFits, M.Evaluate, Reached, Listed,
         Shows, EdgeBefore, ComesBefore, Ascending, Sorted, WithinHops;
    forall id ensures Reached(g, id) <==> Listed(g, id) { ReachesTheNodes(view, root, depth, g, id); }
    forall m | m in g.nodes
      ensures m.id == AtomKey(m.atom) && KindFits(m.kind, M.Evaluate(view, m.atom).0, M.Evaluate(view, m.atom).1)
    {
      NodeIsWithin(view, root, depth, g.nodes, m);
    }
    forall m, n: nat {:trigger Walk(g.edges, g.root, m.id, n)} | m in g.nodes && n <= depth
      ensures Walk(g.edges, g.root, m.id, n) <==> Hops(view.derivations, root, m.atom, n)
    {
      NodeIsWithin(view, root, depth, g.nodes, m);
      WalkIsHops(view.derivations, root, depth, g.edges, m.atom, n);
    }
    EdgesShow(view.derivations, root, depth, g.edges);
    ListsInOrder(g.nodes, g.edges);
  }

  lemma WalkIsHops(ds: M.Derivations, root: Atom, depth: nat, edges: seq<ProofEdge>, x: Atom, n: nat)
    requires EdgesExact(ds, root, depth, edges) && CleanAtom(root) && CleanPremises(ds)
    requires WithinHops(ds, root, x, depth) && n <= depth
    ensures Walk(edges, AtomKey(root), AtomKey(x), n) <==> Hops(ds, root, x, n)
  {
    hide AtomKey, CleanAtom, CleanPremises, EdgesExact, Hops, Walk;
    if Hops(ds, root, x, n) { HopsAreWalks(ds, root, depth, edges, x, n); }
    if Walk(edges, AtomKey(root), AtomKey(x), n) {
      var y := WalksAreHops(ds, root, depth, edges, AtomKey(x), n);
      var k: nat :| k <= depth && Hops(ds, root, x, k);
      HopsAreClean(ds, root, x, k);
      HopsAreClean(ds, root, y, n);
      AtomKeyInjective(x, y);
    }
  }

  lemma FinishedNodes(view: M.State, root: Atom, depth: nat, nodes: map<Str, ProofNode>, seen: map<Str, int>,
        level: Levels, edges: seq<ProofEdge>, list: seq<ProofNode>)
    requires Keyed(view, nodes, seen, level) && Finished(view.derivations, root, depth, level, edges)
    requires forall n :: n in list <==> n.id in nodes && nodes[n.id] == n
    ensures NodesExact(view, root, depth, list)
  {
    hide NodeOf, WithinHops, Finished, Distance, AtomKey, Keyed;
    forall n ensures n in list <==> exists x :: WithinHops(view.derivations, root, x, depth) && n == NodeOf(view, x) {
      NodesAreLevels(view, nodes, seen, level, n);
      forall x ensures x in level <==> WithinHops(view.derivations, root, x, depth) {
        LevelsAreDistances(view.derivations, root, depth, level, edges, x);
      }
    }
  }

  lemma FinishedSeen(view: M.State, root: Atom, depth: nat, nodes: map<Str, ProofNode>, seen: map<Str, int>,
        level: Levels, edges: seq<ProofEdge>)
    requires Keyed(view, nodes, seen, level) && Finished(view.derivations, root, depth, level, edges)
    ensures SeenExact(view.derivations, root, depth, seen)
  {
    hide NodeOf, WithinHops, Finished, Distance, AtomKey;
    forall x | WithinHops(view.derivations, root, x, depth)
      ensures AtomKey(x) in seen && 0 <= seen[AtomKey(x)] <= depth && Distance(view.derivations, root, x, depth - seen[AtomKey(x)])
    {
      LevelsAreDistances(view.derivations, root, depth, level, edges, x);
    }
  }

  lemma FinishedEdges(ds: M.Derivations, root: Atom, depth: nat, level: Levels, edges: seq<ProofEdge>,
        list: seq<ProofEdge>)
    requires Finished(ds, root, depth, level, edges) && forall e :: e in list <==> e in edges
    ensures EdgesExact(ds, root, depth, list)
  {
    hide WithinHops, Finished, Link, AtomKey, EdgeOf;
    forall e ensures e in list <==> LinkDrawn(ds, root, depth, e) {
      EdgesAreLinks(ds, root, depth, level, edges, e);
    }
  }

  /** The premises recorded in a reachable engine are clean. */
  lemma SoundIsClean(st: M.State)
    requires Sound(st)
    ensures CleanPremises(st.derivations)
  {
    forall a, p, rule | Link(st.derivations, a, p, rule) ensures CleanAtom(p) {
      var d :| d in M.ProofsOf(st.derivations, a) && d.rule == rule && p in d.premises;
      assert Recorded(st.derivations, a, d);
      CleanGraph(st, p);
    }
  }

  /** `ExplainGraph` (explain.go:34-95).  The nodes are the atoms within `depth`
      premise hops of the root, each once and in the order of its id, and those
      that the edges lead to from the root, in as few steps; the edges are, as a
      set, the premise links of the atoms within one hop less; and what is
      remembered of an atom is the depth minus its shortest distance. */
  method ExplainGraph(engine: Engine, root: Atom, depth: int) returns (g: ProofGraph, ghost seen: map<Str, int>)
    requires engine.Valid() && CleanAtom(root) && CleanPremises(engine.derivations)
    ensures var limit := if depth < 0 then 0 else depth;
            && g.root == AtomKey(root) && NodesExact(engine.View(), root, limit, g.nodes)
            && EdgesExact(engine.derivations, root, limit, g.edges)
            && SeenExact(engine.derivations, root, limit, seen)
    ensures Pictures(engine.View(), root, if depth < 0 then 0 else depth, g)
    ensures Ascending(g.nodes, NodeOrder) && Sorted(g.edges, EdgeOrder)
    ensures forall es: seq<ProofEdge> :: Sorted(es, EdgeOrder) && multiset(es) == multiset(g.edges) ==> es == g.edges
  {
    hide Engine.Valid, CleanPremises, NodesExact, EdgesExact, SeenExact, CleanAtom, AtomKey, OnPaths, DrawnAreLinks, Done,
         Pictures;
    var d := if depth < 0 then 0 else depth;
    var search := new ProofSearch(engine, root, d);
    HopsFromRoot(engine.derivations, root);
    search.Visit(root, d);
    NodesHaveIds(search.view, search.nodes, search.seen, search.level);
    var nodes := ListNodes(search.nodes);
    SortSorts(search.edges, EdgeOrder);
    g := ProofGraph(AtomKey(root), nodes, Sort(search.edges, EdgeOrder));
    forall es: seq<ProofEdge> | Sorted(es, EdgeOrder) && multiset(es) == multiset(g.edges) ensures es == g.edges {
      OneEdgeOrder(es, g.edges);
    }
    seen := search.seen;
    FinishedNodes(search.view, root, d, search.nodes, search.seen, search.level, search.edges, g.nodes);
    FinishedEdges(search.view.derivations, root, d, search.level, search.edges, g.edges);
    FinishedSeen(search.view, root, d, search.nodes, search.seen, search.level, search.edges);
    ExactPictures(search.view, root, d, g);
  }

  lemma HopsFromRoot(ds: M.Derivations, root: Atom)
    ensures Hops(ds, root, root, 0)
  {
  }
}
