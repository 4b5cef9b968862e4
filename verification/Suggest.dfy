/** Suggesting transitive rules from observed two-hop chains (pkg/ilp/suggest.go). */
module Suggest {
  import opened Order
  import opened Facts
  import opened Rules
  import opened Evaluator
  import opened Search

  /** The reason given for a suggestion is the number of chains, as text. */
  datatype Suggestion = Suggestion(rule: Rule, chains: nat)

  datatype Chain = Chain(a: Str, b: Str, c: Str)

  /** "transitive:" */
  const TRANSITIVE_PREFIX: Str := [116, 114, 97, 110, 115, 105, 116, 105, 118, 101, 58]

  function TransitiveRule(p: Str): Rule
  {
    Rule(TRANSITIVE_PREFIX + p, [Triple(X, p, Y), Triple(Y, p, Z)], Triple(X, p, Z))
  }

  /** The two-hop chains of a predicate. */
  ghost function Chains(edges: seq<Triple>, p: Str): set<Chain>
  {
    set e, f | e in edges && f in edges && e.pred == p && f.pred == p && e.to == f.from :: Chain(e.from, e.to, f.to)
  }

  function ChainKey(a: Str, b: Str, c: Str): Str { a + [BAR] + b + [BAR] + c }

  /** What the program counts: the chains told apart by their keys. */
  ghost function ChainKeys(edges: seq<Triple>, p: Str): set<Str>
  {
    set c | c in Chains(edges, p) :: ChainKey(c.a, c.b, c.c)
  }

  // ---------- counting

  lemma {:induction false} SameCount<A(!new), B(!new)>(s: set<A>, t: set<B>, f: A -> B)
    requires t == set x | x in s :: f(x)
    requires forall x, y :: x in s && y in s && f(x) == f(y) ==> x == y
    ensures |t| == |s|
    decreases |s|
  {
    if s == {} {
      assert t == {};
    } else {
      var x :| x in s;
      var s' := s - {x};
      SameCount(s', set y | y in s' :: f(y), f);
      assert t - {f(x)} == set y | y in s' :: f(y);
    }
  }

  lemma {:induction false} DistinctCount<A>(list: seq<A>, s: set<A>)
    requires forall i, j :: 0 <= i < j < |list| ==> list[i] != list[j]
    requires forall x :: x in list ==> x in s
    ensures |list| <= |s|
    ensures (forall x :: x in s ==> x in list) ==> |list| == |s|
    decreases |list|
  {
    if list != [] {
      var x, rest := list[0], list[1..];
      assert list == [x] + rest;
      assert x in s;
      assert forall y :: y in rest ==> y in s - {x};
      DistinctCount(rest, s - {x});
      if forall y :: y in s ==> y in list {
        assert forall y :: y in s - {x} ==> y in rest;
      }
    } else {
      assert (forall x :: x in s ==> x in list) ==> s == {};
    }
  }

  /** Separator-free names: distinct chains have distinct keys. */
  lemma KeysCountChains(edges: seq<Triple>, p: Str)
    requires AllClean(edges)
    ensures |ChainKeys(edges, p)| == |Chains(edges, p)|
  {
    var f := (c: Chain) => ChainKey(c.a, c.b, c.c);
    forall c, d | c in Chains(edges, p) && d in Chains(edges, p) && f(c) == f(d) ensures c == d {
      AtomKeyInjective(Triple(c.a, c.b, c.c), Triple(d.a, d.b, d.c));
    }
    SameCount(Chains(edges, p), ChainKeys(edges, p), f);
  }

  // ---------- what the suggested rule proves

  function ProofOf(p: Str, c: Chain): Derivation
  {
    Derivation(Triple(c.a, p, c.c), [Triple(c.a, p, c.b), Triple(c.b, p, c.c)])
  }

  /** The suggested rule fires on two edges exactly when they form a chain. */
  lemma FiresOnChains(p: Str, e: Triple, f: Triple)
    requires !IsVar(p)
    ensures Fire(TransitiveRule(p), [e, f]) ==
            if e.pred == p && f.pred == p && e.to == f.from then Some(Triple(e.from, p, f.to)) else None
  {
    var r := TransitiveRule(p);
    var b := MatchAtom(r.premises[0], e, map[]);
    assert X != Y && Y != Z && X != Z;
    if e.pred == p {
      assert b == Some(map[X := e.from, Y := e.to]);
      MatchAllSplit(r.premises, [e, f], map[]);
      assert r.premises[1..] == [Triple(Y, p, Z)] && [e, f][1..] == [f];
      MatchAllSplit([Triple(Y, p, Z)], [f], b.value);
      assert [Triple(Y, p, Z)][1..] == [] && [f][1..] == [];
    } else {
      assert b == None;
      MatchAllSplit(r.premises, [e, f], map[]);
    }
  }

  lemma FireLength(r: Rule, es: seq<Triple>)
    requires Fire(r, es).Some?
    ensures |es| == |r.premises|
  {
  }

  /** The proofs of the suggested rule over the edges are the chains. */
  lemma ProofsAreChains(edges: seq<Triple>, p: Str, d: Derivation)
    requires !IsVar(p)
    ensures Instance(TransitiveRule(p), d.premises, d.head) && (forall e :: e in d.premises ==> e in edges)
            <==> exists c :: c in Chains(edges, p) && d == ProofOf(p, c)
  {
    FireIsInstance(TransitiveRule(p), d.premises, d.head);
    hide Instance, Fire, AllVars, IsVar;
    if Instance(TransitiveRule(p), d.premises, d.head) && forall e :: e in d.premises ==> e in edges {
      FireLength(TransitiveRule(p), d.premises);
      var e, f := d.premises[0], d.premises[1];
      assert d.premises == [e, f];
      FiresOnChains(p, e, f);
      assert e in d.premises && f in d.premises;
      assert Chain(e.from, e.to, f.to) in Chains(edges, p);
      assert e == Triple(e.from, p, e.to) && f == Triple(e.to, p, f.to);
    }
    if exists c :: c in Chains(edges, p) && d == ProofOf(p, c) {
      var c :| c in Chains(edges, p) && d == ProofOf(p, c);
      var e, f :| e in edges && f in edges && e.pred == p && f.pred == p && e.to == f.from && c == Chain(e.from, e.to, f.to);
      assert d.premises == [e, f];
      FiresOnChains(p, e, f);
    }
  }

  lemma SameProofs(p: Str, chains: set<Chain>)
    ensures |set c | c in chains :: ProofOf(p, c)| == |chains|
  {
    var f := (c: Chain) => ProofOf(p, c);
    forall c, d | f(c) == f(d) ensures c == d {
      assert f(c).premises[0] == f(d).premises[0] && f(c).head == f(d).head;
    }
    SameCount(chains, set c | c in chains :: ProofOf(p, c), f);
  }

  /** The suggested rule yields one derivation for each chain: all of them when
      the limit allows, and as many as the limit allows otherwise. */
  lemma SuggestionProvesItsChains(edges: seq<Triple>, p: Str, max: int)
    requires AllClean(edges) && !IsVar(p)
    ensures var n := |ChainKeys(edges, p)|;
            |EvaluatedPlain(TransitiveRule(p), edges, max)| == if max <= 0 then 0 else if max < n then max else n
  {
    var r, chains := TransitiveRule(p), Chains(edges, p);
    var ds := EvaluatedPlain(r, edges, max);
    KeysCountChains(edges, p);
    EvaluatedSound(r, edges, max);
    var proofs := set c | c in chains :: ProofOf(p, c);
    SameProofs(p, chains);
    hide Instance, EvaluatedPlain, ProofOf, Chains, AllClean;
    forall d: Derivation ensures Instance(r, d.premises, d.head) && (forall e :: e in d.premises ==> e in edges) <==> d in proofs {
      ProofsAreChains(edges, p, d);
    }
    DistinctCount(ds, proofs);
    if |ds| < max {
      forall d | d in proofs ensures d in ds { EvaluatedComplete(r, edges, max, d); }
    }
  }

  // ---------- predicates that read as variables

  /** The names the suggested rule uses itself. */
  predicate Reserved(p: Str) { p == X || p == Y || p == Z }

  /** With another variable as predicate the rule fires on any edge that loops. */
  lemma LoopFires(p: Str, g: Triple)
    requires IsVar(p) && !Reserved(p) && g.from == g.to
    ensures Fire(TransitiveRule(p), [g, g]) == Some(g)
  {
    var r := TransitiveRule(p);
    assert X != Y && Y != Z && X != Z;
    var b := map[X := g.from, p := g.pred, Y := g.to];
    assert MatchAtom(r.premises[0], g, map[]) == Some(b);
    MatchAllSplit(r.premises, [g, g], map[]);
    assert r.premises[1..] == [Triple(Y, p, Z)] && [g, g][1..] == [g];
    assert MatchAtom(Triple(Y, p, Z), g, b) == Some(b[Z := g.to]);
    MatchAllSplit([Triple(Y, p, Z)], [g], b);
    assert [Triple(Y, p, Z)][1..] == [] && [g][1..] == [];
    assert MatchAll(r.premises, [g, g], map[]) == Some(b[Z := g.to]);
  }

  /** With one of its own names it fires on no pair of these two loops. */
  lemma ReservedNeverFires(p: Str, e: Triple, f: Triple, g: Triple, h: Triple)
    requires Reserved(p) && e == Loop(SOME, p) && f == Loop(OTHER, LINK)
    requires g in [e, f] && h in [e, f]
    ensures Fire(TransitiveRule(p), [g, h]) == None
  {
    var r := TransitiveRule(p);
    assert X != Y && Y != Z && X != Z;
    MatchAllSplit(r.premises, [g, h], map[]);
    assert r.premises[1..] == [Triple(Y, p, Z)] && [g, h][1..] == [h];
    var b := MatchAtom(r.premises[0], g, map[]);
    if b.Some? {
      MatchAllSplit([Triple(Y, p, Z)], [h], b.value);
      MatchIsLeast(r.premises[0], g, map[], b.value);
      var c := MatchAtom(Triple(Y, p, Z), h, b.value);
      if c.Some? {
        MatchIsLeast(Triple(Y, p, Z), h, b.value, c.value);
      }
    }
  }

  const SOME: Str := [97]
  const OTHER: Str := [98]
  const LINK: Str := [99]

  function Loop(n: Str, p: Str): Triple { Triple(n, p, n) }

  /** Whatever the predicate, the two premises of a proof meet in the middle. */
  lemma ProofsMeet(p: Str, g: Triple, h: Triple)
    requires Fire(TransitiveRule(p), [g, h]).Some?
    ensures g.to == h.from
  {
    var r := TransitiveRule(p);
    var m := MatchAll(r.premises, [g, h], map[]).value;
    MatchAllIsLeast(r.premises, [g, h], map[], m);
    assert Apply(m, r.premises[0]) == Some([g, h][0]) && Apply(m, r.premises[1]) == Some([g, h][1]);
  }

  function TwiceOver(g: Triple): Derivation { Derivation(g, [g, g]) }

  /** So over these two loops a proof goes twice over one of them. */
  lemma LoopProofs(p: Str, d: Derivation)
    requires IsVar(p) && Fire(TransitiveRule(p), d.premises) == Some(d.head)
    requires forall e :: e in d.premises ==> e == Loop(SOME, p) || e == Loop(OTHER, LINK)
    ensures !Reserved(p) && (d == TwiceOver(Loop(SOME, p)) || d == TwiceOver(Loop(OTHER, LINK)))
  {
    hide Fire, IsVar;
    FireLength(TransitiveRule(p), d.premises);
    var g, h := d.premises[0], d.premises[1];
    assert g in d.premises && h in d.premises && d.premises == [g, h];
    ProofsMeet(p, g, h);
    assert SOME != OTHER;
    if Reserved(p) { ReservedNeverFires(p, Loop(SOME, p), Loop(OTHER, LINK), g, h); }
    LoopFires(p, g);
  }

  lemma LoopProofsCounted(p: Str, max: int)
    requires IsVar(p) && Clean(p) && max > 1
    ensures |EvaluatedPlain(TransitiveRule(p), [Loop(SOME, p), Loop(OTHER, LINK)], max)| == if Reserved(p) then 0 else 2
  {
    hide EvaluatedPlain, Instance, Fire, IsVar, Reserved, TransitiveRule;
    var e, f, r := Loop(SOME, p), Loop(OTHER, LINK), TransitiveRule(p);
    var ds := EvaluatedPlain(r, [e, f], max);
    EvaluatedSound(r, [e, f], max);
    assert ds == [] || ds[0] in ds;
    forall d | d in ds ensures !Reserved(p) && (d == TwiceOver(e) || d == TwiceOver(f)) {
      FireIsInstance(r, d.premises, d.head);
      LoopProofs(p, d);
    }
    if !Reserved(p) {
      assert SOME != OTHER && TwiceOver(e) != TwiceOver(f);
      DistinctCount(ds, {TwiceOver(e), TwiceOver(f)});
      if |ds| < max {
        forall g | g in [e, f] ensures TwiceOver(g) in ds {
          LoopFires(p, g);
          FireIsInstance(r, [g, g], g);
          EvaluatedComplete(r, [e, f], max, TwiceOver(g));
        }
        assert e in [e, f] && f in [e, f];
      }
    }
  }

  /** For every predicate that reads as a variable the count is wrong on two
      loops, its own and one more: one chain is counted, but the rule proves both
      loops or, if it uses the name itself, nothing. */
  lemma VariablePredicateMiscounts(p: Str, max: int)
    requires IsVar(p) && Clean(p) && max > 1
    ensures var edges := [Loop(SOME, p), Loop(OTHER, LINK)];
            && AllClean(edges) && |ChainKeys(edges, p)| == 1
            && |EvaluatedPlain(TransitiveRule(p), edges, max)| == if Reserved(p) then 0 else 2
  {
    var edges := [Loop(SOME, p), Loop(OTHER, LINK)];
    LoopProofsCounted(p, max);
    hide EvaluatedPlain, TransitiveRule, Reserved;
    assert LINK != p && edges[0] in edges;
    assert Chains(edges, p) == {Chain(SOME, SOME, SOME)};
    KeysCountChains(edges, p);
  }

  /** The count is the number of derivations over every separator-free edge list
      that the limit does not cut off. */
  ghost predicate CountsItsProofs(p: Str)
  {
    forall edges: seq<Triple>, max: int :: AllClean(edges) && max > |ChainKeys(edges, p)| ==>
      |EvaluatedPlain(TransitiveRule(p), edges, max)| == |ChainKeys(edges, p)|
  }

  /** Exactly for the predicates that do not read as a variable. */
  lemma CountsExactly(p: Str)
    requires Clean(p)
    ensures CountsItsProofs(p) <==> !IsVar(p)
  {
    hide EvaluatedPlain, TransitiveRule, ChainKeys, AllClean, IsVar, Reserved;
    if IsVar(p) {
      VariablePredicateMiscounts(p, 10);
    } else {
      forall edges: seq<Triple>, max: int | AllClean(edges) && max > |ChainKeys(edges, p)|
        ensures |EvaluatedPlain(TransitiveRule(p), edges, max)| == |ChainKeys(edges, p)|
      {
        SuggestionProvesItsChains(edges, p, max);
      }
    }
  }

  // ---------- the program

  function TextOrder(s: Str): Key { [s] }

  function SuggestionOrder(s: Suggestion): Key { [s.rule.conclusion.pred] }

  function Next<T>(m: map<Str, seq<T>>, k: Str): seq<T> { if k in m then m[k] else [] }

  lemma NextAppended<T(!new)>(m: map<Str, seq<T>>, k: Str, v: T)
    ensures forall q, x :: x in Next(m[k := Next(m, k) + [v]], q) <==> x in Next(m, q) || (q == k && x == v)
  {
    var list := Next(m, k);
    assert forall x :: x in list + [v] <==> x in list || x == v;
    forall q, x ensures x in Next(m[k := list + [v]], q) <==> x in Next(m, q) || (q == k && x == v) {
      if q == k { assert Next(m[k := list + [v]], q) == list + [v]; }
    }
  }

  /** The edges by predicate (suggest.go:17-20). */
  method GroupByPredicate(edges: seq<Triple>) returns (byPred: map<Str, seq<Triple>>)
    ensures byPred.Keys == set e | e in edges :: e.pred
    ensures forall p :: p in byPred ==> byPred[p] == WithPredicate(edges, p)
  {
    byPred := map[];
    for i := 0 to |edges|
      invariant byPred.Keys == set e | e in edges[..i] :: e.pred
      invariant forall p :: p in byPred ==> byPred[p] == WithPredicate(edges[..i], p)
    {
      BucketsGrow(byPred, edges, i);
      byPred := byPred[edges[i].pred := Bucket(byPred, edges[i].pred) + [edges[i]]];
    }
    assert edges[..|edges|] == edges;
  }

  lemma WithPredicateHolds(edges: seq<Triple>, p: Str)
    ensures forall e :: e in WithPredicate(edges, p) <==> e in edges && e.pred == p
  {
    forall e ensures e in WithPredicate(edges, p) <==> e in edges && e.pred == p {
      FilterCounts(edges, p, e);
      assert e in multiset(WithPredicate(edges, p)) <==> e in WithPredicate(edges, p);
      assert e in multiset(edges) <==> e in edges;
    }
  }

  ghost predicate Edge(eds: seq<Triple>, a: Str, b: Str) { exists e :: e in eds && e.from == a && e.to == b }

  lemma EdgeAppended(eds: seq<Triple>, e: Triple)
    ensures forall a, b :: Edge(eds + [e], a, b) <==> Edge(eds, a, b) || (a == e.from && b == e.to)
  {
    assert e in eds + [e];
    forall a, b | Edge(eds, a, b) ensures Edge(eds + [e], a, b) {
      var d :| d in eds && d.from == a && d.to == b;
      assert d in eds + [e];
    }
  }

  /** The sorted successors of each node (suggest.go:33-39). */
  method Successors(eds: seq<Triple>) returns (adj: map<Str, seq<Str>>)
    ensures forall a, b :: b in Next(adj, a) <==> Edge(eds, a, b)
  {
    adj := map[];
    for i := 0 to |eds|
      invariant forall a, b :: b in Next(adj, a) <==> Edge(eds[..i], a, b)
    {
      assert eds[..i + 1] == eds[..i] + [eds[i]];
      NextAppended(adj, eds[i].from, eds[i].to);
      EdgeAppended(eds[..i], eds[i]);
      adj := adj[eds[i].from := Next(adj, eds[i].from) + [eds[i].to]];
    }
    assert eds[..|eds|] == eds;
    ghost var before := adj;
    var keys := Range(adj.Keys);
    for i := 0 to |keys|
      invariant adj.Keys == before.Keys
      invariant forall a, b :: b in Next(adj, a) <==> b in Next(before, a)
    {
      var k := keys[i];
      assert k in keys;
      SortSorts(adj[k], TextOrder);
      adj := adj[k := Sort(adj[k], TextOrder)];
    }
  }

  ghost function KeysVia(a: Str, b: Str, cs: seq<Str>): set<Str> { set c | c in cs :: ChainKey(a, b, c) }

  ghost function KeysFrom(adj: map<Str, seq<Str>>, a: Str, bs: seq<Str>): set<Str>
  {
    set b, c | b in bs && c in Next(adj, b) :: ChainKey(a, b, c)
  }

  ghost function KeysOver(adj: map<Str, seq<Str>>, froms: seq<Str>): set<Str>
  {
    set a, k | a in froms && k in KeysFrom(adj, a, Next(adj, a)) :: k
  }

  /** The keys of all paths of two hops. */
  ghost function PathKeys(adj: map<Str, seq<Str>>): set<Str>
  {
    set a, k | a in adj && k in KeysFrom(adj, a, Next(adj, a)) :: k
  }

  lemma NoKeys(adj: map<Str, seq<Str>>, a: Str, b: Str)
    ensures KeysVia(a, b, []) == {} && KeysFrom(adj, a, []) == {} && KeysOver(adj, []) == {}
  {
  }

  lemma KeysViaStep(a: Str, b: Str, cs: seq<Str>, n: nat)
    requires n < |cs|
    ensures KeysVia(a, b, cs[..n + 1]) == KeysVia(a, b, cs[..n]) + {ChainKey(a, b, cs[n])}
  {
    assert cs[..n + 1] == cs[..n] + [cs[n]];
  }

  lemma KeysFromStep(adj: map<Str, seq<Str>>, a: Str, bs: seq<Str>, n: nat)
    requires n < |bs|
    ensures KeysFrom(adj, a, bs[..n + 1]) == KeysFrom(adj, a, bs[..n]) + KeysVia(a, bs[n], Next(adj, bs[n]))
  {
    assert bs[..n + 1] == bs[..n] + [bs[n]];
  }

  lemma KeysOverStep(adj: map<Str, seq<Str>>, froms: seq<Str>, n: nat)
    requires n < |froms|
    ensures KeysOver(adj, froms[..n + 1]) == KeysOver(adj, froms[..n]) + KeysFrom(adj, froms[n], Next(adj, froms[n]))
  {
    assert froms[..n + 1] == froms[..n] + [froms[n]];
  }

  /** The innermost loop (suggest.go:50-57). */
  method CountVia(a: Str, b: Str, cs: seq<Str>, before: set<Str>) returns (met: set<Str>, chains: nat)
    ensures met == before + KeysVia(a, b, cs) && chains == |met| - |before|
  {
    hide KeysVia, ChainKey;
    met, chains := before, 0;
    NoKeys(map[], a, b);
    assert cs[..0] == [];
    for n := 0 to |cs|
      invariant chains == |met| - |before| && met == before + KeysVia(a, b, cs[..n])
    {
      KeysViaStep(a, b, cs, n);
      var k := ChainKey(a, b, cs[n]);
      if k !in met {
        met := met + {k};
        chains := chains + 1;
      }
    }
    assert cs[..|cs|] == cs;
  }

  /** The loop over the successors of one node (suggest.go:49-58). */
  method CountFrom(adj: map<Str, seq<Str>>, a: Str, before: set<Str>) returns (met: set<Str>, chains: nat)
    ensures met == before + KeysFrom(adj, a, Next(adj, a)) && chains == |met| - |before|
  {
    hide KeysVia, KeysFrom;
    met, chains := before, 0;
    var bs := Next(adj, a);
    NoKeys(adj, a, []);
    assert bs[..0] == [];
    for j := 0 to |bs|
      invariant chains == |met| - |before| && met == before + KeysFrom(adj, a, bs[..j])
    {
      KeysFromStep(adj, a, bs, j);
      var more;
      met, more := CountVia(a, bs[j], Next(adj, bs[j]), met);
      chains := chains + more;
    }
    assert bs[..|bs|] == bs;
  }

  /** The nested loops that count (suggest.go:41-59). */
  method CountChains(adj: map<Str, seq<Str>>) returns (chains: nat)
    ensures chains == |PathKeys(adj)|
  {
    hide KeysFrom, KeysOver, ChainKey;
    var froms := Range(adj.Keys);
    SortSorts(froms, TextOrder);
    froms := Sort(froms, TextOrder);
    KeysOverAll(adj, froms);
    chains := 0;
    var met: set<Str> := {};
    NoKeys(adj, [], []);
    assert froms[..0] == [];
    for i := 0 to |froms|
      invariant chains == |met| && met == KeysOver(adj, froms[..i])
    {
      KeysOverStep(adj, froms, i);
      var more;
      met, more := CountFrom(adj, froms[i], met);
      chains := chains + more;
    }
    assert froms[..|froms|] == froms;
  }

  lemma KeysOverAll(adj: map<Str, seq<Str>>, froms: seq<Str>)
    requires forall a :: a in froms <==> a in adj
    ensures KeysOver(adj, froms) == PathKeys(adj)
  {
  }

  lemma PathKeysAre(adj: map<Str, seq<Str>>, k: Str)
    ensures k in PathKeys(adj) <==> exists a, b, c :: b in Next(adj, a) && c in Next(adj, b) && k == ChainKey(a, b, c)
  {
    if a, b, c :| b in Next(adj, a) && c in Next(adj, b) && k == ChainKey(a, b, c) {
      assert k in KeysFrom(adj, a, Next(adj, a));
    }
  }

  /** The chains of one predicate (suggest.go:30-59). */
  method ChainsOf(eds: seq<Triple>, ghost edges: seq<Triple>, ghost p: Str) returns (chains: nat)
    requires eds == WithPredicate(edges, p)
    ensures chains == |ChainKeys(edges, p)|
  {
    WithPredicateHolds(edges, p);
    var adj := Successors(eds);
    chains := CountChains(adj);
    forall k ensures k in PathKeys(adj) <==> k in ChainKeys(edges, p) {
      PathKeysAre(adj, k);
      if k in PathKeys(adj) {
        var a, b, c :| b in Next(adj, a) && c in Next(adj, b) && k == ChainKey(a, b, c);
        assert Chain(a, b, c) in Chains(edges, p);
      }
      if k in ChainKeys(edges, p) {
        var c :| c in Chains(edges, p) && k == ChainKey(c.a, c.b, c.c);
        assert c.b in Next(adj, c.a) && c.c in Next(adj, c.b);
      }
    }
    assert PathKeys(adj) == ChainKeys(edges, p);
  }

  /** A transitive rule with the number of its chains, which is large enough. */
  ghost predicate Suggested(edges: seq<Triple>, minChains: int, s: Suggestion)
  {
    var p := s.rule.conclusion.pred;
    s.rule == TransitiveRule(p) && s.chains == |ChainKeys(edges, p)| && s.chains >= 1 && s.chains >= minChains
  }

  lemma ChainsHavePredicate(edges: seq<Triple>, p: Str)
    requires |ChainKeys(edges, p)| >= 1
    ensures exists e :: e in edges && e.pred == p
  {
    var k :| k in ChainKeys(edges, p);
    var c :| c in Chains(edges, p);
  }

  /** The suggestions for these predicates. */
  ghost predicate ListsSuggested(out: seq<Suggestion>, edges: seq<Triple>, minChains: int, preds: seq<Str>)
  {
    forall s :: s in out <==> s.rule.conclusion.pred in preds && Suggested(edges, minChains, s)
  }

  lemma Suggests(out: seq<Suggestion>, edges: seq<Triple>, minChains: int, preds: seq<Str>, s: Suggestion)
    requires ListsSuggested(out, edges, minChains, preds) && Suggested(edges, minChains, s)
    ensures ListsSuggested(out + [s], edges, minChains, preds + [s.rule.conclusion.pred])
  {
    hide ChainKeys, TransitiveRule;
    var p := s.rule.conclusion.pred;
    forall t: Suggestion ensures t in out + [s] <==> t.rule.conclusion.pred in preds + [p] && Suggested(edges, minChains, t) {
      assert t in out + [s] <==> t in out || t == s;
      assert t.rule.conclusion.pred in preds + [p] <==> t.rule.conclusion.pred in preds || t.rule.conclusion.pred == p;
    }
  }

  lemma SuggestsNot(out: seq<Suggestion>, edges: seq<Triple>, minChains: int, preds: seq<Str>, p: Str)
    requires ListsSuggested(out, edges, minChains, preds)
    requires forall s: Suggestion :: s.rule.conclusion.pred == p ==> !Suggested(edges, minChains, s)
    ensures ListsSuggested(out, edges, minChains, preds + [p])
  {
    forall t: Suggestion ensures t in out <==> t.rule.conclusion.pred in preds + [p] && Suggested(edges, minChains, t) {
      assert t.rule.conclusion.pred in preds + [p] <==> t.rule.conclusion.pred in preds || t.rule.conclusion.pred == p;
    }
  }

  lemma AppendAscends(out: seq<Suggestion>, s: Suggestion, preds: seq<Str>, i: nat)
    requires Ascending(out, SuggestionOrder) && Ascending(preds, TextOrder)
    requires i < |preds| && s.rule.conclusion.pred == preds[i]
    requires forall t :: t in out ==> t.rule.conclusion.pred in preds[..i]
    ensures Ascending(out + [s], SuggestionOrder)
  {
    forall m | 0 <= m < |out| ensures KeyLess(SuggestionOrder(out[m]), SuggestionOrder(s)) {
      assert out[m] in out;
      var k :| 0 <= k < i && preds[k] == out[m].rule.conclusion.pred;
      assert KeyLess(TextOrder(preds[k]), TextOrder(preds[i]));
    }
  }

  /** `SuggestTransitive` (suggest.go:12-76): a rule for each predicate with
      enough chains, at least one, with their number, in the order of the predicates. */
  method SuggestTransitive(edges: seq<Triple>, minChains: int) returns (out: seq<Suggestion>)
    ensures forall i, j :: 0 <= i < j < |out| ==> ComesBefore(out[i].rule.conclusion.pred, out[j].rule.conclusion.pred)
    ensures forall s :: s in out <==> Suggested(edges, minChains, s)
  {
    hide ChainKeys, WithPredicate, KeyLess, TextOrder, SuggestionOrder;
    var least := if minChains <= 0 then 1 else minChains;
    var byPred := GroupByPredicate(edges);
    var preds := Range(byPred.Keys);
    SortAscendsText(preds);
    preds := Sort(preds, TextOrder);
    out := [];
    for i := 0 to |preds|
      invariant Ascending(out, SuggestionOrder)
      invariant ListsSuggested(out, edges, minChains, preds[..i])
    {
      var p := preds[i];
      assert p in preds;
      assert preds[..i + 1] == preds[..i] + [p];
      var chains := ChainsOf(byPred[p], edges, p);
      if chains >= least {
        var s := Suggestion(TransitiveRule(p), chains);
        AppendAscends(out, s, preds, i);
        Suggests(out, edges, minChains, preds[..i], s);
        out := out + [s];
      } else {
        SuggestsNot(out, edges, minChains, preds[..i], p);
      }
    }
    assert preds[..|preds|] == preds;
    forall s | Suggested(edges, minChains, s) ensures s in out {
      ChainsHavePredicate(edges, s.rule.conclusion.pred);
    }
    SuggestionsInOrder(out);
  }

  lemma SuggestionsInOrder(out: seq<Suggestion>)
    requires Ascending(out, SuggestionOrder)
    ensures forall i, j :: 0 <= i < j < |out| ==> ComesBefore(out[i].rule.conclusion.pred, out[j].rule.conclusion.pred)
  {
    hide KeyLess, ComesBefore;
    forall i, j | 0 <= i < j < |out| ensures ComesBefore(out[i].rule.conclusion.pred, out[j].rule.conclusion.pred) {
      KeyLessOne(out[i].rule.conclusion.pred, out[j].rule.conclusion.pred);
    }
  }

  /** Over separator-free edges a suggestion is, for a predicate `p` that has enough
      distinct chains, the rule "transitive:p" from "?x" p "?y" and "?y" p "?z" to
      "?x" p "?z", with the number of the chains. */
  lemma SuggestionIs(edges: seq<Triple>, minChains: int, s: Suggestion)
    requires AllClean(edges)
    ensures Suggested(edges, minChains, s) <==>
            exists p: Str ::
              && |Chains(edges, p)| >= 1 && |Chains(edges, p)| >= minChains && s.chains == |Chains(edges, p)|
              && s.rule.name == [116, 114, 97, 110, 115, 105, 116, 105, 118, 101, 58] + p
              && s.rule.premises == [Triple([63, 120], p, [63, 121]), Triple([63, 121], p, [63, 122])]
              && s.rule.conclusion == Triple([63, 120], p, [63, 122])
  {
    hide Chains, ChainKeys;
    KeysCountChains(edges, s.rule.conclusion.pred);
  }

  lemma SortAscendsText(texts: seq<Str>)
    requires forall i, j :: 0 <= i < j < |texts| ==> texts[i] != texts[j]
    ensures Ascending(Sort(texts, TextOrder), TextOrder)
    ensures forall t :: t in Sort(texts, TextOrder) <==> t in texts
  {
    forall x, y | x in texts && y in texts && TextOrder(x) == TextOrder(y) ensures x == y {
      assert TextOrder(x)[0] == TextOrder(y)[0];
    }
    SortAscends(texts, TextOrder);
  }
}
