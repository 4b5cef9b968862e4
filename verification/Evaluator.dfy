/** The rule evaluator: a backtracking join over the edges, truncated at `max`
    and de-duplicated by key, with and without the predicate index
    (pkg/rules/eval.go, pkg/rules/eval_indexed.go).

    The two evaluators of the source are one search that differs in the edges
    it tries for a premise, so `Lookup` says which of them is meant. */
module Evaluator {
  import opened Order
  import opened Facts
  import opened Rules

  datatype Derivation = Derivation(head: Triple, premises: seq<Triple>)

  type PredicateIndex = map<Str, seq<Triple>>

  datatype Lookup =
    | Scan(views: seq<Triple>)
    | Indexed(views: seq<Triple>, idx: PredicateIndex)

  function DerivationKey(d: Derivation): Str { AtomKey(d.head) + KeyTail(d.premises) }

  function Flatten(atoms: seq<Triple>): Key
  {
    if atoms == [] then [] else [atoms[0].from, atoms[0].pred, atoms[0].to] + Flatten(atoms[1..])
  }

  /** The comparator of the final sort. */
  function DerivationOrder(d: Derivation): Key { [d.head.from, d.head.pred, d.head.to] + Flatten(d.premises) }

  function BucketOrder(e: Triple): Key { [e.from, e.to] }

  function WithPredicate(edges: seq<Triple>, p: Str): seq<Triple>
  {
    if edges == [] then []
    else if edges[0].pred == p then [edges[0]] + WithPredicate(edges[1..], p)
    else WithPredicate(edges[1..], p)
  }

  /** What `BuildPredicateIndex` builds. */
  ghost function IndexOf(edges: seq<Triple>): PredicateIndex
  {
    map p | p in (set e | e in edges :: e.pred) :: Sort(WithPredicate(edges, p), BucketOrder)
  }

  function Bucket(idx: PredicateIndex, p: Str): seq<Triple> { if p in idx then idx[p] else [] }

  /** `candidatesFor` (eval_indexed.go:63-77); a plain evaluation scans everything. */
  function CandidatesFor(src: Lookup, p: Pattern, binds: Bindings): seq<Triple>
  {
    match src
    case Scan(views) => views
    case Indexed(views, idx) =>
      if p.pred != [] && p.pred[0] == QUERY then
        if p.pred in binds then Bucket(idx, binds[p.pred]) else views
      else
        Bucket(idx, p.pred)
  }

  /** A complete set of bindings gives one derivation, or none. */
  function Leaf(r: Rule, binds: Bindings): seq<Derivation>
  {
    match (Apply(binds, r.conclusion), ApplyAll(binds, r.premises))
    case (Some(head), Some(premises)) => [Derivation(head, premises)]
    case _ => []
  }

  /** Every derivation of the search from premise `i` on, in the order the search meets them. */
  function Enumerate(src: Lookup, r: Rule, i: nat, binds: Bindings): seq<Derivation>
    requires i <= |r.premises|
    decreases |r.premises| - i, 1, 0
  {
    if i == |r.premises| then Leaf(r, binds)
    else EnumerateFrom(src, r, CandidatesFor(src, r.premises[i], binds), i, binds)
  }

  function EnumerateFrom(src: Lookup, r: Rule, cands: seq<Triple>, i: nat, binds: Bindings): seq<Derivation>
    requires i < |r.premises|
    decreases |r.premises| - i, 0, |cands|
  {
    if cands == [] then [] else
      (match MatchAtom(r.premises[i], cands[0], binds)
       case None => []
       case Some(b) => Enumerate(src, r, i + 1, b))
      + EnumerateFrom(src, r, cands[1..], i, binds)
  }

  ghost predicate Seen(out: seq<Derivation>, d: Derivation)
  {
    exists o :: o in out && DerivationKey(o) == DerivationKey(d)
  }

  /** Taking derivations one by one: stop at `max`, skip keys already taken. */
  ghost function Collect(out: seq<Derivation>, found: seq<Derivation>, max: int): seq<Derivation>
    decreases |found|
  {
    if found == [] || |out| >= max then out
    else if Seen(out, found[0]) then Collect(out, found[1..], max)
    else Collect(out + [found[0]], found[1..], max)
  }

  ghost function Taken(src: Lookup, r: Rule, max: int): seq<Derivation>
  {
    Collect([], Enumerate(src, r, 0, map[]), max)
  }

  ghost function Evaluated(src: Lookup, r: Rule, max: int): seq<Derivation>
  {
    if max <= 0 then [] else Sort(Taken(src, r, max), DerivationOrder)
  }

  /** What `EvaluateRuleDerivations` returns. */
  ghost function EvaluatedPlain(r: Rule, edges: seq<Triple>, max: int): seq<Derivation>
  {
    Evaluated(Scan(Sort(edges, AtomOrder)), r, max)
  }

  /** What `EvaluateRuleDerivationsIndexed` returns. */
  ghost function EvaluatedIndexed(r: Rule, edges: seq<Triple>, idx: PredicateIndex, max: int): seq<Derivation>
  {
    Evaluated(Indexed(Sort(edges, AtomOrder), idx), r, max)
  }

  // ---------- the indexed evaluator refines the plain one

  lemma {:induction false} FilterCounts(s: seq<Triple>, p: Str, e: Triple)
    ensures multiset(WithPredicate(s, p))[e] == if e.pred == p then multiset(s)[e] else 0
  {
    if s != [] {
      FilterCounts(s[1..], p, e);
      assert s == [s[0]] + s[1..];
    }
  }

  lemma SamePredicateOrder(e: Triple, f: Triple)
    requires e.pred == f.pred
    ensures KeyLess(AtomOrder(e), AtomOrder(f)) <==> KeyLess(BucketOrder(e), BucketOrder(f))
  {
    FieldOrder(e.pred, f.pred);
    assert AtomOrder(e)[1..] == [e.pred, e.to] && AtomOrder(f)[1..] == [f.pred, f.to];
    assert [e.pred, e.to][1..] == [e.to] && [f.pred, f.to][1..] == [f.to];
    assert BucketOrder(e)[1..] == [e.to] && BucketOrder(f)[1..] == [f.to];
    assert KeyLess([e.pred, e.to], [f.pred, f.to]) == KeyLess([e.to], [f.to]);
  }

  lemma {:induction false} NoneLeft(s: seq<Triple>, p: Str)
    requires forall e :: e in s ==> e.pred != p
    ensures WithPredicate(s, p) == []
  {
    if s != [] { NoneLeft(s[1..], p); }
  }

  lemma {:induction false} FilterSorted(s: seq<Triple>, p: Str)
    requires Sorted(s, AtomOrder)
    ensures Sorted(WithPredicate(s, p), BucketOrder)
    ensures forall e :: e in WithPredicate(s, p) ==> e in s && e.pred == p
  {
    if s != [] {
      FilterSorted(s[1..], p);
      if s[0].pred == p {
        forall e | e in s[1..] && e.pred == p ensures !KeyLess(BucketOrder(e), BucketOrder(s[0])) {
          SamePredicateOrder(e, s[0]);
        }
      }
    }
  }

  /** A sorted bucket is the sorted edge list with the other predicates left out. */
  lemma BucketIsFiltered(edges: seq<Triple>, p: Str)
    ensures Bucket(IndexOf(edges), p) == WithPredicate(Sort(edges, AtomOrder), p)
  {
    var b, f := WithPredicate(edges, p), WithPredicate(Sort(edges, AtomOrder), p);
    SortSorts(edges, AtomOrder);
    SortSorts(b, BucketOrder);
    FilterSorted(Sort(edges, AtomOrder), p);
    forall e ensures multiset(b)[e] == multiset(f)[e] {
      FilterCounts(edges, p, e);
      FilterCounts(Sort(edges, AtomOrder), p, e);
    }
    assert multiset(b) == multiset(f);
    forall x, y | x in f && y in f && BucketOrder(x) == BucketOrder(y) ensures x == y {
      assert BucketOrder(x)[0] == BucketOrder(y)[0] && BucketOrder(x)[1] == BucketOrder(y)[1];
    }
    SortUnique(f, Sort(b, BucketOrder), BucketOrder);
    if p !in IndexOf(edges) {
      NoneLeft(edges, p);
      assert |multiset(f)| == 0;
    }
  }

  ghost predicate OnlyVars(binds: Bindings) { forall v :: v in binds ==> IsVar(v) }

  /** Candidates of another predicate never match. */
  lemma MissesDoNotMatch(p: Pattern, e: Triple, binds: Bindings)
    requires OnlyVars(binds)
    ensures MatchAtom(p, e, binds).Some? ==> OnlyVars(MatchAtom(p, e, binds).value)
    ensures MatchAtom(p, e, binds).Some? && p.pred in binds ==> binds[p.pred] == e.pred
    ensures MatchAtom(p, e, binds).Some? && !IsVar(p.pred) ==> p.pred == e.pred
  {
    if MatchAtom(p, e, binds).Some? {
      MatchIsLeast(p, e, binds, MatchAtom(p, e, binds).value);
    }
  }

  lemma {:induction false} SkipMisses(src: Lookup, r: Rule, cands: seq<Triple>, i: nat, binds: Bindings, p: Str)
    requires i < |r.premises|
    requires forall e :: e in cands && e.pred != p ==> MatchAtom(r.premises[i], e, binds).None?
    ensures EnumerateFrom(src, r, cands, i, binds) == EnumerateFrom(src, r, WithPredicate(cands, p), i, binds)
  {
    if cands != [] {
      SkipMisses(src, r, cands[1..], i, binds, p);
      if cands[0].pred == p {
        var f := WithPredicate(cands, p);
        assert f[0] == cands[0] && f[1..] == WithPredicate(cands[1..], p);
      }
    }
  }

  lemma {:induction false} SameFrom(v: seq<Triple>, edges: seq<Triple>, r: Rule, cands: seq<Triple>, i: nat,
        binds: Bindings)
    requires i < |r.premises| && OnlyVars(binds) && v == Sort(edges, AtomOrder)
    ensures EnumerateFrom(Indexed(v, IndexOf(edges)), r, cands, i, binds) == EnumerateFrom(Scan(v), r, cands, i, binds)
    decreases |r.premises| - i, 0, |cands|
  {
    if cands != [] {
      SameFrom(v, edges, r, cands[1..], i, binds);
      MissesDoNotMatch(r.premises[i], cands[0], binds);
      match MatchAtom(r.premises[i], cands[0], binds) {
        case None =>
        case Some(b) => SameSearch(v, edges, r, i + 1, b);
      }
    }
  }

  lemma {:induction false} SameSearch(v: seq<Triple>, edges: seq<Triple>, r: Rule, i: nat, binds: Bindings)
    requires i <= |r.premises| && OnlyVars(binds) && v == Sort(edges, AtomOrder)
    ensures Enumerate(Indexed(v, IndexOf(edges)), r, i, binds) == Enumerate(Scan(v), r, i, binds)
    decreases |r.premises| - i, 1, 0
  {
    if i < |r.premises| {
      var src, p := Indexed(v, IndexOf(edges)), r.premises[i];
      var cands := CandidatesFor(src, p, binds);
      SameFrom(v, edges, r, cands, i, binds);
      if cands != v {
        var wanted := if p.pred in binds then binds[p.pred] else p.pred;
        BucketIsFiltered(edges, wanted);
        assert cands == WithPredicate(v, wanted);
        forall e | e in v && e.pred != wanted ensures MatchAtom(p, e, binds).None? {
          MissesDoNotMatch(p, e, binds);
        }
        SkipMisses(Scan(v), r, v, i, binds, wanted);
      }
    }
  }

  /** For every rule, edge list and limit, the indexed evaluator returns
      exactly the list the plain one returns. */
  lemma FastRefinesPlain(r: Rule, edges: seq<Triple>, max: int)
    ensures EvaluatedIndexed(r, edges, IndexOf(edges), max) == EvaluatedPlain(r, edges, max)
  {
    SameSearch(Sort(edges, AtomOrder), edges, r, 0, map[]);
  }

  // ---------- the plain evaluator is sound and complete

  lemma {:induction false} ApplyAllIs(binds: Bindings, ps: seq<Pattern>, es: seq<Triple>)
    requires |ps| == |es|
    ensures ApplyAll(binds, ps) == Some(es) <==> forall i :: 0 <= i < |ps| ==> Apply(binds, ps[i]) == Some(es[i])
  {
    hide Apply;
    if ps != [] {
      ApplyAllIs(binds, ps[1..], es[1..]);
      if forall i :: 0 <= i < |ps| ==> Apply(binds, ps[i]) == Some(es[i]) {
        assert forall i :: 0 <= i < |ps| - 1 ==> ps[1..][i] == ps[i + 1] && es[1..][i] == es[i + 1];
        assert es == [es[0]] + es[1..];
      }
      if ApplyAll(binds, ps) == Some(es) {
        assert es[1..] == ApplyAll(binds, ps[1..]).value;
        forall i | 0 <= i < |ps| ensures Apply(binds, ps[i]) == Some(es[i]) {
          if i > 0 { assert ps[i] == ps[1..][i - 1] && es[i] == es[1..][i - 1]; }
        }
      }
    }
  }

  lemma {:induction false} ApplyAllLength(binds: Bindings, ps: seq<Pattern>)
    ensures ApplyAll(binds, ps).Some? ==> |ApplyAll(binds, ps).value| == |ps|
  {
    if ps != [] { ApplyAllLength(binds, ps[1..]); }
  }

  /** The search below premise `i` finds `d`: the rest of `d`'s premises are
      edges that match the rest of the rule's, and all of it fits together. */
  ghost predicate Found(r: Rule, views: seq<Triple>, i: nat, binds: Bindings, d: Derivation)
    requires i <= |r.premises|
  {
    && |d.premises| == |r.premises|
    && (forall k :: i <= k < |d.premises| ==> d.premises[k] in views)
    && var m := MatchAll(r.premises[i..], d.premises[i..], binds);
       && m.Some?
       && Apply(m.value, r.conclusion) == Some(d.head)
       && ApplyAll(m.value, r.premises) == Some(d.premises)
  }

  lemma FoundStep(r: Rule, views: seq<Triple>, i: nat, binds: Bindings, d: Derivation)
    requires i < |r.premises| && |d.premises| == |r.premises|
    ensures Found(r, views, i, binds, d) <==>
            && d.premises[i] in views
            && MatchAtom(r.premises[i], d.premises[i], binds).Some?
            && Found(r, views, i + 1, MatchAtom(r.premises[i], d.premises[i], binds).value, d)
  {
    assert r.premises[i..][0] == r.premises[i] && r.premises[i..][1..] == r.premises[i + 1..];
    assert d.premises[i..][0] == d.premises[i] && d.premises[i..][1..] == d.premises[i + 1..];
  }

  lemma {:induction false} SearchFromExact(r: Rule, views: seq<Triple>, cands: seq<Triple>, i: nat,
        binds: Bindings, d: Derivation)
    requires i < |r.premises|
    ensures d in EnumerateFrom(Scan(views), r, cands, i, binds) <==>
            exists e :: e in cands && MatchAtom(r.premises[i], e, binds).Some?
              && Found(r, views, i + 1, MatchAtom(r.premises[i], e, binds).value, d)
    decreases |r.premises| - i, 0, |cands|
  {
    if cands != [] {
      SearchFromExact(r, views, cands[1..], i, binds, d);
      assert cands == [cands[0]] + cands[1..];
      match MatchAtom(r.premises[i], cands[0], binds) {
        case None =>
        case Some(b) => SearchExact(r, views, i + 1, b, d);
      }
    }
  }

  lemma {:induction false} SearchExact(r: Rule, views: seq<Triple>, i: nat, binds: Bindings, d: Derivation)
    requires i <= |r.premises|
    ensures d in Enumerate(Scan(views), r, i, binds) <==> Found(r, views, i, binds, d)
    decreases |r.premises| - i, 1, 0
  {
    ApplyAllLength(binds, r.premises);
    if i == |r.premises| {
      assert |d.premises| == |r.premises| ==> r.premises[i..] == [] && d.premises[i..] == [];
    } else {
      SearchFromExact(r, views, views, i, binds, d);
      forall e | e in views && MatchAtom(r.premises[i], e, binds).Some?
               && Found(r, views, i + 1, MatchAtom(r.premises[i], e, binds).value, d)
        ensures e == d.premises[i]
      {
        MatchedIsPremise(r, views, i, binds, e, d);
      }
      if |d.premises| == |r.premises| { FoundStep(r, views, i, binds, d); }
    }
  }

  lemma MatchedIsPremise(r: Rule, views: seq<Triple>, i: nat, binds: Bindings, e: Triple, d: Derivation)
    requires i < |r.premises| && MatchAtom(r.premises[i], e, binds).Some?
    requires Found(r, views, i + 1, MatchAtom(r.premises[i], e, binds).value, d)
    ensures e == d.premises[i]
  {
    var c := MatchAtom(r.premises[i], e, binds).value;
    var m := MatchAll(r.premises[i + 1..], d.premises[i + 1..], c).value;
    MatchAllIsLeast(r.premises[i + 1..], d.premises[i + 1..], c, m);
    MatchIsLeast(r.premises[i], e, binds, m);
    ApplyAllIs(m, r.premises, d.premises);
  }

  /** The search meets exactly the rule's instances over the edges. */
  lemma SearchIsInstances(r: Rule, views: seq<Triple>, d: Derivation)
    ensures d in Enumerate(Scan(views), r, 0, map[]) <==>
            Fire(r, d.premises) == Some(d.head) && forall e :: e in d.premises ==> e in views
  {
    SearchExact(r, views, 0, map[], d);
    if |d.premises| == |r.premises| {
      assert r.premises[0..] == r.premises && d.premises[0..] == d.premises;
      var m := MatchAll(r.premises, d.premises, map[]);
      if m.Some? {
        MatchAllIsLeast(r.premises, d.premises, map[], m.value);
        ApplyAllIs(m.value, r.premises, d.premises);
      }
    }
  }

  // ---------- truncation and de-duplication

  lemma {:induction false} CollectSplit(out: seq<Derivation>, f: seq<Derivation>, g: seq<Derivation>, max: int)
    ensures Collect(out, f + g, max) == Collect(Collect(out, f, max), g, max)
    decreases |f|
  {
    if f == [] {
      assert f + g == g;
    } else if |out| < max {
      assert (f + g)[0] == f[0] && (f + g)[1..] == f[1..] + g;
      CollectSplit(if Seen(out, f[0]) then out else out + [f[0]], f[1..], g, max);
    }
  }

  lemma {:induction false} CollectFacts(out: seq<Derivation>, found: seq<Derivation>, max: int)
    requires forall i, j :: 0 <= i < j < |out| ==> DerivationKey(out[i]) != DerivationKey(out[j])
    ensures var c := Collect(out, found, max);
            && out <= c
            && |c| <= (if |out| >= max then |out| else max)
            && (forall i, j :: 0 <= i < j < |c| ==> DerivationKey(c[i]) != DerivationKey(c[j]))
            && (forall d :: d in c ==> d in out || d in found)
            && (|c| < max ==> forall d :: d in found ==> Seen(c, d))
    decreases |found|
  {
    if found != [] && |out| < max {
      assert found == [found[0]] + found[1..];
      var out' := if Seen(out, found[0]) then out else out + [found[0]];
      CollectFacts(out', found[1..], max);
      assert Seen(out', found[0]);
    }
  }

  lemma {:induction false} CollectMonotone(out: seq<Derivation>, found: seq<Derivation>, m: int, n: int)
    requires m <= n
    ensures Collect(out, found, m) <= Collect(out, found, n)
    decreases |found|
  {
    if |out| >= m {
      CollectGrows(out, found, n);
    } else if found != [] {
      CollectMonotone(if Seen(out, found[0]) then out else out + [found[0]], found[1..], m, n);
    }
  }

  lemma {:induction false} CollectGrows(out: seq<Derivation>, found: seq<Derivation>, max: int)
    ensures out <= Collect(out, found, max)
    decreases |found|
  {
    if found != [] && |out| < max {
      CollectGrows(if Seen(out, found[0]) then out else out + [found[0]], found[1..], max);
    }
  }

  lemma InstanceKeysDiffer(r: Rule, d: Derivation, o: Derivation)
    requires Fire(r, d.premises) == Some(d.head) && Fire(r, o.premises) == Some(o.head)
    requires AllClean(d.premises) && AllClean(o.premises)
    requires DerivationKey(d) == DerivationKey(o)
    ensures d == o
  {
    KeyTailInjective(AtomKey(d.head), d.premises, AtomKey(o.head), o.premises);
  }

  /** Every result is a substitution instance over the edges, there are at
      most `max` of them and none twice. */
  lemma EvaluatedSound(r: Rule, edges: seq<Triple>, max: int)
    ensures var ds := EvaluatedPlain(r, edges, max);
            && (max > 0 ==> |ds| <= max) && (max <= 0 ==> ds == [])
            && (forall d :: d in ds ==> Instance(r, d.premises, d.head) && forall e :: e in d.premises ==> e in edges)
            && (forall i, j :: 0 <= i < j < |ds| ==> ds[i] != ds[j])
  {
    if max > 0 {
      var src := Scan(Sort(edges, AtomOrder));
      var t := Taken(src, r, max);
      CollectFacts([], Enumerate(src, r, 0, map[]), max);
      SortSorts(t, DerivationOrder);
      SortSorts(edges, AtomOrder);
      NoRepeats(t, Sort(t, DerivationOrder));
      forall d | d in t ensures Instance(r, d.premises, d.head) && forall e :: e in d.premises ==> e in edges {
        SearchIsInstances(r, src.views, d);
        FireIsInstance(r, d.premises, d.head);
      }
    }
  }

  /** Short of `max`, the results are all the instances over separator-free edges. */
  lemma EvaluatedComplete(r: Rule, edges: seq<Triple>, max: int, d: Derivation)
    requires AllClean(edges)
    requires |EvaluatedPlain(r, edges, max)| < max
    ensures d in EvaluatedPlain(r, edges, max) <==>
            Instance(r, d.premises, d.head) && forall e :: e in d.premises ==> e in edges
  {
    EvaluatedSound(r, edges, max);
    if Instance(r, d.premises, d.head) && forall e :: e in d.premises ==> e in edges {
      var src := Scan(Sort(edges, AtomOrder));
      var found := Enumerate(src, r, 0, map[]);
      var t := Taken(src, r, max);
      SortSorts(edges, AtomOrder);
      SortSorts(t, DerivationOrder);
      CollectFacts([], found, max);
      FireIsInstance(r, d.premises, d.head);
      SearchIsInstances(r, src.views, d);
      var o :| o in t && DerivationKey(o) == DerivationKey(d);
      SearchIsInstances(r, src.views, o);
      InstanceKeysDiffer(r, d, o);
    }
  }

  /** A larger limit only adds results. */
  lemma LargerLimitAdds(r: Rule, edges: seq<Triple>, m: int, n: int, d: Derivation)
    requires m <= n && d in EvaluatedPlain(r, edges, m)
    ensures d in EvaluatedPlain(r, edges, n)
  {
    var src := Scan(Sort(edges, AtomOrder));
    CollectMonotone([], Enumerate(src, r, 0, map[]), m, n);
    SortSorts(Taken(src, r, m), DerivationOrder);
    SortSorts(Taken(src, r, n), DerivationOrder);
  }

  // ---------- which results a limit keeps, and their order

  /** At the first premise where they differ, `s` has the atom that comes first. */
  ghost predicate TupleBefore(s: seq<Triple>, t: seq<Triple>)
    decreases |s|
  {
    s != [] && t != [] && (AtomBefore(s[0], t[0]) || (s[0] == t[0] && TupleBefore(s[1..], t[1..])))
  }

  lemma {:induction false} TupleOrder(s: seq<Triple>, t: seq<Triple>)
    ensures TupleBefore(s, t) ==> !TupleBefore(t, s) && s != t
    decreases |s|
  {
    hide AtomBefore, KeyLess, AtomOrder;
    if s != [] && t != [] {
      AtomOrderMeans(s[0], t[0]);
      AtomOrderMeans(t[0], s[0]);
      KeyOrder(AtomOrder(s[0]), AtomOrder(t[0]));
      TupleOrder(s[1..], t[1..]);
    }
  }

  ghost predicate RestBefore(d: Derivation, e: Derivation, i: nat)
  {
    i <= |d.premises| && i <= |e.premises| && TupleBefore(d.premises[i..], e.premises[i..])
  }

  /** The premises from the i-th on ascend. */
  ghost predicate TuplesAscend(ds: seq<Derivation>, i: nat)
  {
    forall p, q :: 0 <= p < q < |ds| ==> RestBefore(ds[p], ds[q], i)
  }

  lemma FromPremise(r: Rule, views: seq<Triple>, cands: seq<Triple>, i: nat, binds: Bindings, d: Derivation)
    requires i < |r.premises| && d in EnumerateFrom(Scan(views), r, cands, i, binds)
    ensures |d.premises| == |r.premises| && d.premises[i] in cands
  {
    SearchFromExact(r, views, cands, i, binds, d);
    var e :| e in cands && MatchAtom(r.premises[i], e, binds).Some?
             && Found(r, views, i + 1, MatchAtom(r.premises[i], e, binds).value, d);
    MatchedIsPremise(r, views, i, binds, e, d);
  }

  lemma FirstPremise(r: Rule, views: seq<Triple>, i: nat, binds: Bindings, e: Triple, d: Derivation)
    requires i < |r.premises| && MatchAtom(r.premises[i], e, binds).Some?
    requires d in Enumerate(Scan(views), r, i + 1, MatchAtom(r.premises[i], e, binds).value)
    ensures |d.premises| == |r.premises| && d.premises[i] == e
  {
    SearchExact(r, views, i + 1, MatchAtom(r.premises[i], e, binds).value, d);
    MatchedIsPremise(r, views, i, binds, e, d);
  }

  /** With the same i-th premise, the later ones decide. */
  lemma SamePremiseAscends(ds: seq<Derivation>, i: nat, e: Triple)
    requires TuplesAscend(ds, i + 1) && forall d :: d in ds ==> i < |d.premises| && d.premises[i] == e
    ensures TuplesAscend(ds, i)
  {
    hide AtomBefore;
    forall p, q | 0 <= p < q < |ds| ensures RestBefore(ds[p], ds[q], i) {
      assert ds[p] in ds && ds[q] in ds && RestBefore(ds[p], ds[q], i + 1);
      assert ds[p].premises[i..][0] == e && ds[p].premises[i..][1..] == ds[p].premises[i + 1..];
      assert ds[q].premises[i..][0] == e && ds[q].premises[i..][1..] == ds[q].premises[i + 1..];
    }
  }

  lemma ConcatAscends(a: seq<Derivation>, b: seq<Derivation>, i: nat)
    requires TuplesAscend(a, i) && TuplesAscend(b, i)
    requires forall d, e :: d in a && e in b ==> RestBefore(d, e, i)
    ensures TuplesAscend(a + b, i)
  {
    hide RestBefore;
  }

  lemma FirstDecides(d: Derivation, e: Derivation, i: nat)
    requires i < |d.premises| && i < |e.premises| && AtomBefore(d.premises[i], e.premises[i])
    ensures RestBefore(d, e, i)
  {
    assert d.premises[i..][0] == d.premises[i] && e.premises[i..][0] == e.premises[i];
  }

  lemma {:induction false} FromAscends(r: Rule, views: seq<Triple>, cands: seq<Triple>, i: nat, binds: Bindings)
    requires i < |r.premises| && AtomsAscend(views) && AtomsAscend(cands)
    ensures TuplesAscend(EnumerateFrom(Scan(views), r, cands, i, binds), i)
    decreases |r.premises| - i, 0, |cands|
  {
    hide AtomBefore, MatchAtom;
    if cands != [] {
      var rest := EnumerateFrom(Scan(views), r, cands[1..], i, binds);
      FromAscends(r, views, cands[1..], i, binds);
      match MatchAtom(r.premises[i], cands[0], binds) {
        case None =>
          assert [] + rest == rest;
        case Some(b) =>
          var first := Enumerate(Scan(views), r, i + 1, b);
          SearchAscends(r, views, i + 1, b);
          forall d | d in first ensures i < |d.premises| && d.premises[i] == cands[0] {
            FirstPremise(r, views, i, binds, cands[0], d);
          }
          SamePremiseAscends(first, i, cands[0]);
          forall d, e | d in first && e in rest ensures RestBefore(d, e, i) {
            FromPremise(r, views, cands[1..], i, binds, e);
            var k :| 0 <= k < |cands[1..]| && cands[1..][k] == e.premises[i];
            assert cands[k + 1] == e.premises[i];
            FirstDecides(d, e, i);
          }
          ConcatAscends(first, rest, i);
      }
    }
  }

  /** The search meets the instances in the order of their premises. */
  lemma {:induction false} SearchAscends(r: Rule, views: seq<Triple>, i: nat, binds: Bindings)
    requires i <= |r.premises| && AtomsAscend(views)
    ensures TuplesAscend(Enumerate(Scan(views), r, i, binds), i)
    decreases |r.premises| - i, 1, 0
  {
    hide AtomBefore;
    if i < |r.premises| { FromAscends(r, views, views, i, binds); }
  }

  ghost predicate KeysDiffer(ds: seq<Derivation>)
  {
    forall i, j :: 0 <= i < j < |ds| ==> DerivationKey(ds[i]) != DerivationKey(ds[j])
  }

  /** Without repeated keys, taking stops at the limit and nowhere else. */
  lemma {:induction false} CollectIsPrefix(out: seq<Derivation>, found: seq<Derivation>, max: int)
    requires KeysDiffer(out + found) && |out| <= max
    ensures Collect(out, found, max) == out + found[..if |found| <= max - |out| then |found| else max - |out|]
    decreases |found|
  {
    hide DerivationKey;
    if found == [] || |out| >= max {
      assert out + found[..0] == out;
    } else {
      var d, rest := found[0], found[1..];
      assert (out + found)[|out|] == d;
      assert !Seen(out, d) by {
        forall k | 0 <= k < |out| ensures DerivationKey(out[k]) != DerivationKey(d) {
          assert (out + found)[k] == out[k];
        }
      }
      assert out + found == (out + [d]) + rest;
      CollectIsPrefix(out + [d], rest, max);
      var n := if |found| <= max - |out| then |found| else max - |out|;
      assert found[..n] == [d] + rest[..n - 1];
      assert out + found[..n] == (out + [d]) + rest[..n - 1];
    }
  }

  lemma FoundKeysDiffer(r: Rule, views: seq<Triple>)
    requires AtomsAscend(views) && AllClean(views)
    ensures KeysDiffer(Enumerate(Scan(views), r, 0, map[]))
  {
    hide AtomBefore, Fire, DerivationKey, Enumerate, CleanAtom;
    var found := Enumerate(Scan(views), r, 0, map[]);
    SearchAscends(r, views, 0, map[]);
    forall i, j | 0 <= i < j < |found| ensures DerivationKey(found[i]) != DerivationKey(found[j]) {
      var d, e := found[i], found[j];
      assert d in found && e in found;
      SearchIsInstances(r, views, d);
      SearchIsInstances(r, views, e);
      assert d.premises[0..] == d.premises && e.premises[0..] == e.premises;
      TupleOrder(d.premises, e.premises);
      if DerivationKey(d) == DerivationKey(e) {
        InstanceKeysDiffer(r, d, e);
        assert false;
      }
    }
  }

  lemma TakenIsPrefix(r: Rule, views: seq<Triple>, max: int)
    requires AtomsAscend(views) && AllClean(views) && max > 0
    ensures var found := Enumerate(Scan(views), r, 0, map[]);
            Taken(Scan(views), r, max) == found[..if |found| <= max then |found| else max]
  {
    hide Enumerate, AtomBefore, Collect;
    var found := Enumerate(Scan(views), r, 0, map[]);
    FoundKeysDiffer(r, views);
    assert [] + found == found;
    CollectIsPrefix([], found, max);
    assert forall n :: 0 <= n <= |found| ==> [] + found[..n] == found[..n];
  }

  lemma ViewsAscend(edges: seq<Triple>)
    requires forall i, j :: 0 <= i < j < |edges| ==> edges[i] != edges[j]
    ensures AtomsAscend(Sort(edges, AtomOrder)) && forall e :: e in Sort(edges, AtomOrder) <==> e in edges
  {
    AtomOrderInjective(edges);
    SortAscends(edges, AtomOrder);
    AscendingAtoms(Sort(edges, AtomOrder));
  }

  /** What a limit cuts off: over distinct separator-free edges an instance whose
      premises come before those of a result is a result. */
  lemma KeepsTheFirst(r: Rule, edges: seq<Triple>, max: int, d: Derivation, e: Derivation)
    requires AllClean(edges) && forall i, j :: 0 <= i < j < |edges| ==> edges[i] != edges[j]
    requires d in EvaluatedPlain(r, edges, max)
    requires Instance(r, e.premises, e.head) && (forall a :: a in e.premises ==> a in edges) && TupleBefore(e.premises, d.premises)
    ensures e in EvaluatedPlain(r, edges, max)
  {
    hide AtomBefore, Enumerate, Fire, CleanAtom, Instance;
    var views := Sort(edges, AtomOrder);
    ViewsAscend(edges);
    var found, t := Enumerate(Scan(views), r, 0, map[]), Taken(Scan(views), r, max);
    SortSorts(t, DerivationOrder);
    TakenIsPrefix(r, views, max);
    FireIsInstance(r, e.premises, e.head);
    SearchIsInstances(r, views, e);
    SearchAscends(r, views, 0, map[]);
    hide Sort, Taken;
    var q :| 0 <= q < |t| && t[q] == d;
    var p :| 0 <= p < |found| && found[p] == e;
    if p >= |t| {
      assert found[q].premises[0..] == d.premises && found[p].premises[0..] == e.premises;
      TupleOrder(d.premises, e.premises);
      assert false;
    }
    assert t[p] == e;
  }

  /** By conclusion, then by premises. */
  ghost predicate DerivationBefore(d: Derivation, e: Derivation)
  {
    AtomBefore(d.head, e.head) || (d.head == e.head && TupleBefore(d.premises, e.premises))
  }

  lemma {:induction false} FlattenMeans(s: seq<Triple>, t: seq<Triple>)
    requires |s| == |t|
    ensures KeyLess(Flatten(s), Flatten(t)) <==> TupleBefore(s, t)
    ensures Flatten(s) == Flatten(t) ==> s == t
    decreases |s|
  {
    hide AtomBefore, KeyLess;
    if s != [] {
      FlattenMeans(s[1..], t[1..]);
      PrefixedOrder(s[0], Flatten(s[1..]), t[0], Flatten(t[1..]));
      assert s == [s[0]] + s[1..] && t == [t[0]] + t[1..];
    } else {
      EmptyKeys();
    }
  }

  lemma EmptyKeys()
    ensures !KeyLess([], [])
  {
  }

  lemma DerivationOrderMeans(d: Derivation, e: Derivation)
    requires |d.premises| == |e.premises|
    ensures KeyLess(DerivationOrder(d), DerivationOrder(e)) <==> DerivationBefore(d, e)
    ensures DerivationOrder(d) == DerivationOrder(e) ==> d == e
  {
    FlattenMeans(d.premises, e.premises);
    PrefixedOrder(d.head, Flatten(d.premises), e.head, Flatten(e.premises));
  }

  /** The results are strictly in this order. */
  lemma ResultsInOrder(r: Rule, edges: seq<Triple>, max: int)
    ensures var ds := EvaluatedPlain(r, edges, max);
            forall i, j :: 0 <= i < j < |ds| ==> DerivationBefore(ds[i], ds[j])
  {
    hide Taken, DerivationBefore, Instance;
    var ds := EvaluatedPlain(r, edges, max);
    EvaluatedSound(r, edges, max);
    SortSorts(Taken(Scan(Sort(edges, AtomOrder)), r, max), DerivationOrder);
    forall i, j | 0 <= i < j < |ds| ensures DerivationBefore(ds[i], ds[j]) {
      assert ds[i] in ds && ds[j] in ds;
      InstanceLength(r, ds[i]);
      InstanceLength(r, ds[j]);
      DerivationOrderMeans(ds[i], ds[j]);
      KeyOrder(DerivationOrder(ds[i]), DerivationOrder(ds[j]));
    }
  }

  lemma InstanceLength(r: Rule, d: Derivation)
    requires Instance(r, d.premises, d.head)
    ensures |d.premises| == |r.premises|
  {
  }
}
