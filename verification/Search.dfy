/** The evaluators as the program runs them: an index of growing buckets, and a
    search that appends to a shared result and a shared set of seen keys. */
module Search {
  import opened Order
  import opened Facts
  import opened Rules
  import opened Evaluator

  lemma {:induction false} WithPredicateAppend(s: seq<Triple>, e: Triple, p: Str)
    ensures WithPredicate(s + [e], p) == WithPredicate(s, p) + (if e.pred == p then [e] else [])
  {
    if s == [] {
      assert s + [e] == [e];
    } else {
      WithPredicateAppend(s[1..], e, p);
      assert (s + [e])[0] == s[0] && (s + [e])[1..] == s[1..] + [e];
    }
  }

  /** Appending one edge to the bucket of its predicate. */
  lemma BucketsGrow(idx: PredicateIndex, edges: seq<Triple>, i: nat)
    requires i < |edges| && idx.Keys == (set e | e in edges[..i] :: e.pred)
    requires forall p :: p in idx ==> idx[p] == WithPredicate(edges[..i], p)
    ensures var next := idx[edges[i].pred := Bucket(idx, edges[i].pred) + [edges[i]]];
            && next.Keys == (set e | e in edges[..i + 1] :: e.pred)
            && forall p :: p in next ==> next[p] == WithPredicate(edges[..i + 1], p)
  {
    hide WithPredicate;
    var e := edges[i];
    assert edges[..i + 1] == edges[..i] + [e];
    forall p ensures WithPredicate(edges[..i + 1], p) ==
                     WithPredicate(edges[..i], p) + (if e.pred == p then [e] else []) {
      WithPredicateAppend(edges[..i], e, p);
    }
    if e.pred !in idx { NoneLeft(edges[..i], e.pred); }
  }

  /** `BuildPredicateIndex` (eval_indexed.go:15-30). */
  method BuildPredicateIndex(edges: seq<Triple>) returns (idx: PredicateIndex)
    ensures idx == IndexOf(edges)
  {
    idx := map[];
    for i := 0 to |edges|
      invariant idx.Keys == set e | e in edges[..i] :: e.pred
      invariant forall p :: p in idx ==> idx[p] == WithPredicate(edges[..i], p)
    {
      BucketsGrow(idx, edges, i);
      idx := idx[edges[i].pred := Bucket(idx, edges[i].pred) + [edges[i]]];
    }
    assert edges[..|edges|] == edges;
    var todo := idx.Keys;
    while todo != {}
      invariant todo <= idx.Keys == set e | e in edges :: e.pred
      invariant forall p :: p in todo ==> idx[p] == WithPredicate(edges, p)
      invariant forall p :: p in idx.Keys - todo ==> idx[p] == Sort(WithPredicate(edges, p), BucketOrder)
    {
      var p :| p in todo;
      idx := idx[p := Sort(idx[p], BucketOrder)];
      todo := todo - {p};
    }
  }

  /** The state the `dfs` closure shares between its calls. */
  class Join {
    const src: Lookup
    const rule: Rule
    const max: int
    var out: seq<Derivation>
    var seen: set<Str>

    ghost predicate Valid()
      reads this
    {
      seen == set d | d in out :: DerivationKey(d)
    }

    constructor (src: Lookup, rule: Rule, max: int)
      ensures Valid() && out == []
      ensures this.src == src && this.rule == rule && this.max == max
    {
      this.src, this.rule, this.max := src, rule, max;
      out, seen := [], {};
    }

    /** A complete set of bindings: its derivation, unless its key was seen (eval.go:136-157). */
    method Finish(binds: Bindings)
      requires Valid() && |out| < max
      modifies this
      ensures Valid()
      ensures out == Collect(old(out), Leaf(rule, binds), max)
    {
      hide Apply, ApplyAll, DerivationKey;
      var head := Apply(binds, rule.conclusion);
      if head == None {
        return;
      }
      var premises := ApplyAll(binds, rule.premises);
      if premises == None {
        return;
      }
      var d := Derivation(head.value, premises.value);
      var k := DerivationKey(d);
      CollectOne(out, d, max);
      if k in seen {
        return;
      }
      seen := seen + {k};
      out := out + [d];
    }

    /** Adds what the search below premise `i` finds, up to the limit (eval.go:132-170). */
    method Dfs(i: nat, binds: Bindings)
      requires Valid() && i <= |rule.premises|
      modifies this
      ensures Valid()
      ensures out == Collect(old(out), Enumerate(src, rule, i, binds), max)
      decreases |rule.premises| - i
    {
      hide Collect, Leaf, CandidatesFor, MatchAtom, Join.Valid;
      CollectFull(out, Enumerate(src, rule, i, binds), max);
      if |out| >= max {
        return;
      }
      if i == |rule.premises| {
        Finish(binds);
        return;
      }
      var cands := CandidatesFor(src, rule.premises[i], binds);
      ghost var all := EnumerateFrom(src, rule, cands, i, binds);
      assert cands[0..] == cands;
      var j := 0;
      while j < |cands|
        invariant j <= |cands| && Valid()
        invariant Collect(old(out), all, max) == Collect(out, EnumerateFrom(src, rule, cands[j..], i, binds), max)
      {
        var b := MatchAtom(rule.premises[i], cands[j], binds);
        ghost var rest := EnumerateFrom(src, rule, cands[j + 1..], i, binds);
        FromStep(src, rule, cands, j, i, binds);
        if b.Some? {
          CollectSplit(out, Enumerate(src, rule, i + 1, b.value), rest, max);
          Dfs(i + 1, b.value);
          CollectFull(out, rest, max);
          if |out| >= max {
            return;
          }
        } else {
          assert [] + rest == rest;
        }
        j := j + 1;
      }
      CollectNone(out, max);
    }
  }

  lemma CollectOne(out: seq<Derivation>, d: Derivation, max: int)
    requires |out| < max
    ensures Collect(out, [d], max) == if Seen(out, d) then out else out + [d]
  {
    assert [d][0] == d && [d][1..] == [];
  }

  lemma CollectNone(out: seq<Derivation>, max: int)
    ensures Collect(out, [], max) == out
  {
  }

  lemma CollectFull(out: seq<Derivation>, found: seq<Derivation>, max: int)
    ensures |out| >= max ==> Collect(out, found, max) == out
  {
  }

  lemma FromStep(src: Lookup, r: Rule, cands: seq<Triple>, j: nat, i: nat, binds: Bindings)
    requires i < |r.premises| && j < |cands|
    ensures EnumerateFrom(src, r, cands[j..], i, binds) ==
            (match MatchAtom(r.premises[i], cands[j], binds)
             case None => []
             case Some(b) => Enumerate(src, r, i + 1, b)) + EnumerateFrom(src, r, cands[j + 1..], i, binds)
  {
    assert cands[j..][0] == cands[j] && cands[j..][1..] == cands[j + 1..];
  }

  /** `EvaluateRuleDerivations` (eval.go:104-203). */
  method EvaluateRuleDerivations(rule: Rule, edges: seq<Triple>, max: int) returns (out: seq<Derivation>)
    ensures out == EvaluatedPlain(rule, edges, max)
  {
    if max <= 0 {
      return [];
    }
    var join := new Join(Scan(Sort(edges, AtomOrder)), rule, max);
    join.Dfs(0, map[]);
    out := Sort(join.out, DerivationOrder);
  }

  /** `EvaluateRuleDerivationsIndexed` (eval_indexed.go:35-151). */
  method EvaluateRuleDerivationsIndexed(rule: Rule, edges: seq<Triple>, idx: PredicateIndex, max: int)
      returns (out: seq<Derivation>)
    ensures out == EvaluatedIndexed(rule, edges, idx, max)
    ensures idx == IndexOf(edges) ==> out == EvaluatedPlain(rule, edges, max)
  {
    FastRefinesPlain(rule, edges, max);
    if max <= 0 {
      return [];
    }
    var join := new Join(Indexed(Sort(edges, AtomOrder), idx), rule, max);
    join.Dfs(0, map[]);
    out := Sort(join.out, DerivationOrder);
  }
}
