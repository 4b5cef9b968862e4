/** The two-way graph index (pkg/kg/memgraph.go). */
module KnowledgeGraph {
  import opened Order
  import opened Facts

  /** node -> predicate -> nodes */
  type Adjacency = map<Str, map<Str, set<Str>>>

  predicate Links(m: Adjacency, a: Str, p: Str, b: Str) { a in m && p in m[a] && b in m[a][p] }

  function Neighbours(m: Adjacency, a: Str, p: Str): set<Str> { if a in m && p in m[a] then m[a][p] else {} }

  function Linked(m: Adjacency, a: Str, p: Str, b: Str): Adjacency
  {
    var preds := if a in m then m[a] else map[];
    m[a := preds[p := Neighbours(m, a, p) + {b}]]
  }

  ghost function TriplesOf(out: Adjacency): set<Triple>
  {
    set f, p, t | f in out && p in out[f] && t in out[f][p] :: Triple(f, p, t)
  }

  lemma LinkAdds(m: Adjacency, a: Str, p: Str, b: Str)
    ensures forall x, q, y :: Links(Linked(m, a, p, b), x, q, y) <==> Links(m, x, q, y) || (x == a && q == p && y == b)
  {
  }

  lemma TriplesAre(out: Adjacency)
    ensures forall e: Triple :: e in TriplesOf(out) <==> Links(out, e.from, e.pred, e.to)
  {
    forall e: Triple | Links(out, e.from, e.pred, e.to) ensures e in TriplesOf(out) {
      assert e == Triple(e.from, e.pred, e.to);
    }
  }

  /** `in` is `out` read backwards. */
  ghost predicate Mirrored(out: Adjacency, into: Adjacency)
  {
    forall f, p, t :: Links(out, f, p, t) <==> Links(into, t, p, f)
  }

  lemma LinkBothWays(out: Adjacency, into: Adjacency, f: Str, p: Str, t: Str)
    requires Mirrored(out, into)
    ensures Mirrored(Linked(out, f, p, t), Linked(into, t, p, f))
    ensures TriplesOf(Linked(out, f, p, t)) == TriplesOf(out) + {Triple(f, p, t)}
  {
    LinkAdds(out, f, p, t);
    LinkAdds(into, t, p, f);
    TriplesAre(out);
    TriplesAre(Linked(out, f, p, t));
  }

  function OutOrder(e: Triple): Key { [e.pred, e.to] }

  function InOrder(e: Triple): Key { [e.pred, e.from] }

  function EndsOrder(e: Triple): Key { [e.from, e.to] }

  lemma EndsOrderInjective(list: seq<Triple>, p: Str)
    requires forall e :: e in list ==> e.pred == p
    ensures Injective(list, EndsOrder)
  {
    forall x, y | x in list && y in list && EndsOrder(x) == EndsOrder(y) ensures x == y {
      assert EndsOrder(x)[0] == EndsOrder(y)[0] && EndsOrder(x)[1] == EndsOrder(y)[1];
    }
  }

  lemma OutAscends(list: seq<Triple>)
    requires Ascending(list, OutOrder)
    ensures forall i, j :: 0 <= i < j < |list| ==> PairBefore(list[i].pred, list[i].to, list[j].pred, list[j].to)
  {
    forall i, j | 0 <= i < j < |list| ensures PairBefore(list[i].pred, list[i].to, list[j].pred, list[j].to) {
      KeyLessTwo(list[i].pred, list[i].to, list[j].pred, list[j].to);
    }
  }

  lemma InAscends(list: seq<Triple>)
    requires Ascending(list, InOrder)
    ensures forall i, j :: 0 <= i < j < |list| ==> PairBefore(list[i].pred, list[i].from, list[j].pred, list[j].from)
  {
    forall i, j | 0 <= i < j < |list| ensures PairBefore(list[i].pred, list[i].from, list[j].pred, list[j].from) {
      KeyLessTwo(list[i].pred, list[i].from, list[j].pred, list[j].from);
    }
  }

  lemma EndsAscend(list: seq<Triple>)
    requires Ascending(list, EndsOrder)
    ensures forall i, j :: 0 <= i < j < |list| ==> PairBefore(list[i].from, list[i].to, list[j].from, list[j].to)
  {
    forall i, j | 0 <= i < j < |list| ensures PairBefore(list[i].from, list[i].to, list[j].from, list[j].to) {
      KeyLessTwo(list[i].from, list[i].to, list[j].from, list[j].to);
    }
  }

  class MemGraph {
    var out: Adjacency
    var into: Adjacency
    var facts: int

    /** The triples of the graph. */
    ghost var edges: set<Triple>

    ghost predicate Valid()
      reads this
    {
      edges == TriplesOf(out) && Mirrored(out, into) && facts == |edges| && forall e :: e in edges ==> ValidAtom(e)
    }

    constructor ()
      ensures Valid() && edges == {}
    {
      out, into, facts, edges := map[], map[], 0, {};
    }

    /** `AddFact` (memgraph.go:27-59). */
    method AddFact(from: Str, pred: Str, to: Str) returns (ok: bool)
      requires Valid()
      modifies this
      ensures Valid()
      ensures ok <==> from != [] && pred != [] && to != []
      ensures edges == if ok then old(edges) + {Triple(from, pred, to)} else old(edges)
    {
      hide TriplesOf, Mirrored, Linked, Links;
      if from == [] || to == [] || pred == [] {
        return false;
      }
      TriplesAre(out);
      if Links(out, from, pred, to) {
        assert edges + {Triple(from, pred, to)} == edges;
        return true;
      }
      LinkBothWays(out, into, from, pred, to);
      assert |edges + {Triple(from, pred, to)}| == |edges| + 1;
      out := Linked(out, from, pred, to);
      into := Linked(into, to, pred, from);
      edges := edges + {Triple(from, pred, to)};
      facts := facts + 1;
      return true;
    }

    /** The nested loops over one node's outgoing edges. */
    method ListFrom(from: Str) returns (list: seq<Triple>)
      ensures forall e :: e in list <==> Links(out, e.from, e.pred, e.to) && e.from == from
      ensures forall i, j :: 0 <= i < j < |list| ==> list[i] != list[j]
    {
      if from !in out {
        return [];
      }
      var preds := Range(out[from].Keys);
      list := [];
      for i := 0 to |preds|
        invariant forall e :: e in list <==> Links(out, e.from, e.pred, e.to) && e.from == from && e.pred in preds[..i]
        invariant forall i, j :: 0 <= i < j < |list| ==> list[i] != list[j]
      {
        var p := preds[i];
        assert p in preds && p !in preds[..i];
        var tos := Range(out[from][p]);
        var more := Star(from, p, tos);
        list := list + more;
        assert preds[..i + 1] == preds[..i] + [p];
      }
      assert preds[..|preds|] == preds;
    }

    static method Star(from: Str, p: Str, tos: seq<Str>) returns (list: seq<Triple>)
      requires forall i, j :: 0 <= i < j < |tos| ==> tos[i] != tos[j]
      ensures forall e :: e in list <==> e.from == from && e.pred == p && e.to in tos
      ensures forall i, j :: 0 <= i < j < |list| ==> list[i] != list[j]
    {
      list := [];
      for i := 0 to |tos|
        invariant |list| == i && forall k :: 0 <= k < i ==> list[k] == Triple(from, p, tos[k])
      {
        list := list + [Triple(from, p, tos[i])];
      }
      forall e: Triple | e.from == from && e.pred == p && e.to in tos ensures e in list {
        var k :| 0 <= k < |tos| && tos[k] == e.to;
        assert list[k] == e;
      }
    }

    /** `EdgesFrom` (memgraph.go:61-84). */
    method EdgesFrom(from: Str) returns (list: seq<Triple>)
      requires Valid()
      ensures list == SortedListing((set e | e in edges && e.from == from), OutOrder)
      ensures forall e :: e in list <==> e in edges && e.from == from
      ensures forall i, j :: 0 <= i < j < |list| ==> PairBefore(list[i].pred, list[i].to, list[j].pred, list[j].to)
    {
      list := ListFrom(from);
      TriplesAre(out);
      forall x, y | x in list && y in list && OutOrder(x) == OutOrder(y) ensures x == y {
        assert OutOrder(x)[0] == OutOrder(y)[0] && OutOrder(x)[1] == OutOrder(y)[1];
      }
      SortedListingIs((set e | e in edges && e.from == from), list, OutOrder);
      list := Sort(list, OutOrder);
      OutAscends(list);
    }

    /** `EdgesTo` (memgraph.go:86-109). */
    method EdgesTo(to: Str) returns (list: seq<Triple>)
      requires Valid()
      ensures list == SortedListing((set e | e in edges && e.to == to), InOrder)
      ensures forall e :: e in list <==> e in edges && e.to == to
      ensures forall i, j :: 0 <= i < j < |list| ==> PairBefore(list[i].pred, list[i].from, list[j].pred, list[j].from)
    {
      list := [];
      if to in into {
        var preds := Range(into[to].Keys);
        for i := 0 to |preds|
          invariant forall e :: e in list <==> Links(into, e.to, e.pred, e.from) && e.to == to && e.pred in preds[..i]
          invariant forall i, j :: 0 <= i < j < |list| ==> list[i] != list[j]
        {
          var p := preds[i];
          assert p in preds && p !in preds[..i];
          var froms := Range(into[to][p]);
          var more := CoStar(froms, p, to);
          list := list + more;
          assert preds[..i + 1] == preds[..i] + [p];
        }
        assert preds[..|preds|] == preds;
      }
      TriplesAre(out);
      forall x, y | x in list && y in list && InOrder(x) == InOrder(y) ensures x == y {
        assert InOrder(x)[0] == InOrder(y)[0] && InOrder(x)[1] == InOrder(y)[1];
      }
      SortedListingIs((set e | e in edges && e.to == to), list, InOrder);
      list := Sort(list, InOrder);
      InAscends(list);
    }

    static method CoStar(froms: seq<Str>, p: Str, to: Str) returns (list: seq<Triple>)
      requires forall i, j :: 0 <= i < j < |froms| ==> froms[i] != froms[j]
      ensures forall e :: e in list <==> e.to == to && e.pred == p && e.from in froms
      ensures forall i, j :: 0 <= i < j < |list| ==> list[i] != list[j]
    {
      list := [];
      for i := 0 to |froms|
        invariant |list| == i && forall k :: 0 <= k < i ==> list[k] == Triple(froms[k], p, to)
      {
        list := list + [Triple(froms[i], p, to)];
      }
      forall e: Triple | e.to == to && e.pred == p && e.from in froms ensures e in list {
        var k :| 0 <= k < |froms| && froms[k] == e.from;
        assert list[k] == e;
      }
    }

    /** `EdgesAll` (memgraph.go:111-134). */
    method EdgesAll() returns (list: seq<Triple>)
      requires Valid()
      ensures list == SortedListing(edges, AtomOrder)
      ensures AtomsAscend(list) && forall e :: e in list <==> e in edges
    {
      hide KeyLess, AtomOrder, AtomBefore, AtomsAscend, Mirrored, ValidAtom, Ascending, Injective, Sort;
      var froms := Range(out.Keys);
      list := [];
      for i := 0 to |froms|
        invariant forall e :: e in list <==> Links(out, e.from, e.pred, e.to) && e.from in froms[..i]
        invariant forall i, j :: 0 <= i < j < |list| ==> list[i] != list[j]
      {
        assert froms[i] in froms && froms[i] !in froms[..i];
        var more := ListFrom(froms[i]);
        list := list + more;
        assert froms[..i + 1] == froms[..i] + [froms[i]];
      }
      assert froms[..|froms|] == froms;
      TriplesAre(out);
      AtomOrderInjective(list);
      SortedListingIs(edges, list, AtomOrder);
      list := Sort(list, AtomOrder);
      AscendingAtoms(list);
    }

    /** `EdgesByPredicate` (memgraph.go:158-180). */
    method EdgesByPredicate(pred: Str) returns (list: seq<Triple>)
      requires Valid()
      ensures list == SortedListing((set e | e in edges && e.pred == pred), EndsOrder)
      ensures forall e :: e in list <==> e in edges && e.pred == pred
      ensures forall i, j :: 0 <= i < j < |list| ==> PairBefore(list[i].from, list[i].to, list[j].from, list[j].to)
    {
      hide KeyLess, EndsOrder, PairBefore, Mirrored, ValidAtom, Ascending, Injective, Sort;
      var froms := Range(out.Keys);
      list := [];
      for i := 0 to |froms|
        invariant forall e :: e in list <==> Links(out, e.from, e.pred, e.to) && e.pred == pred && e.from in froms[..i]
        invariant forall i, j :: 0 <= i < j < |list| ==> list[i] != list[j]
      {
        var f := froms[i];
        assert f in froms && f !in froms[..i];
        if pred in out[f] {
          var tos := Range(out[f][pred]);
          var more := Star(f, pred, tos);
          list := list + more;
        }
        assert froms[..i + 1] == froms[..i] + [f];
      }
      assert froms[..|froms|] == froms;
      TriplesAre(out);
      EndsOrderInjective(list, pred);
      SortedListingIs((set e | e in edges && e.pred == pred), list, EndsOrder);
      list := Sort(list, EndsOrder);
      EndsAscend(list);
    }

    method FactsCount() returns (n: int)
      requires Valid()
      ensures n == |edges|
    {
      n := facts;
    }

    /** `CountIncoming` (memgraph.go:143-155): one for each edge that ends there. */
    method CountIncoming(to: Str, pred: Str) returns (n: int)
      requires Valid()
      ensures n == |set e | e in edges && e.to == to && e.pred == pred|
    {
      n := |Neighbours(into, to, pred)|;
      TriplesAre(out);
      OneEdgeEach(Neighbours(into, to, pred), pred, to);
      assert (set f | f in Neighbours(into, to, pred) :: Triple(f, pred, to))
          == (set e | e in edges && e.to == to && e.pred == pred) by {
        forall e ensures e in (set f | f in Neighbours(into, to, pred) :: Triple(f, pred, to)) <==>
                         e in edges && e.to == to && e.pred == pred {
          assert e in edges <==> Links(into, e.to, e.pred, e.from);
          assert e == Triple(e.from, e.pred, e.to);
        }
      }
    }
  }

  lemma {:induction false} OneEdgeEach(froms: set<Str>, p: Str, to: Str)
    ensures |set f | f in froms :: Triple(f, p, to)| == |froms|
  {
    if froms != {} {
      var x :| x in froms;
      OneEdgeEach(froms - {x}, p, to);
      assert (set f | f in froms :: Triple(f, p, to)) == (set f | f in froms - {x} :: Triple(f, p, to)) + {Triple(x, p, to)};
    }
  }
}
