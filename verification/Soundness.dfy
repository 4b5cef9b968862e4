/** What every step keeps, caps or not: the graph agrees with the beliefs and the
    resolutions, and nothing in it is invented. */
module Soundness {
  import opened Order
  import opened Facts
  import opened Rules
  import opened Evaluator
  import opened Datalog
  import opened Machine

  // ---------- names that the joined keys keep apart

  predicate CleanRule(r: Rule)
  {
    SEMICOLON !in r.name && forall f :: f in [r.conclusion.from, r.conclusion.pred, r.conclusion.to] && !IsVar(f) ==> Clean(f)
  }

  ghost predicate CleanState(st: State)
  {
    && (forall b :: b in st.beliefs ==> CleanAtom(b.atom))
    && (forall r :: r in st.rules ==> CleanRule(r))
  }

  ghost predicate CleanProof(d: DerivationProof) { SEMICOLON !in d.rule && AllClean(d.premises) }

  lemma FireClean(r: Rule, es: seq<Atom>)
    requires CleanRule(r) && AllClean(es) && Fire(r, es).Some?
    ensures CleanAtom(Fire(r, es).value)
  {
    var a := Fire(r, es).value;
    forall f | f in Fields(a) ensures Clean(f) {
      FireFields(r, es, f);
      if f in AllFields(es) {
        var e :| e in es && f in Fields(e);
      } else {
        assert f in [r.conclusion.from, r.conclusion.pred, r.conclusion.to];
      }
    }
    assert a.from in Fields(a) && a.pred in Fields(a) && a.to in Fields(a);
  }

  // ---------- recorded derivations

  ghost predicate Recorded(ds: Derivations, a: Atom, d: DerivationProof) { a in ds && d in ds[a] }

  ghost predicate CanonicalLists(ds: Derivations)
  {
    forall a :: a in ds ==> ds[a] != [] && Ascending(ds[a], ProofOrder)
  }

  lemma {:induction false} AtomKeysInjective(a: seq<Atom>, b: seq<Atom>)
    requires AllClean(a) && AllClean(b) && AtomKeys(a) == AtomKeys(b)
    ensures a == b
    decreases |a|
  {
    if a != [] && b != [] {
      assert AtomKeys(a)[0] == AtomKeys(b)[0] && AtomKeys(a)[1..] == AtomKeys(b)[1..];
      AtomKeyInjective(a[0], b[0]);
      AtomKeysInjective(a[1..], b[1..]);
      assert a == [a[0]] + a[1..] && b == [b[0]] + b[1..];
    }
  }

  lemma ProofOrderInjective(c: DerivationProof, d: DerivationProof)
    requires CleanProof(c) && CleanProof(d) && ProofOrder(c) == ProofOrder(d)
    ensures c == d
  {
    assert ProofOrder(c)[0] == ProofOrder(d)[0] && ProofOrder(c)[1..] == ProofOrder(d)[1..];
    AtomKeysInjective(c.premises, d.premises);
  }

  lemma ProofKeyInjective(c: DerivationProof, d: DerivationProof)
    requires CleanProof(c) && CleanProof(d) && ProofKey(c) == ProofKey(d)
    ensures c == d
  {
    NamedKeyInjective(c.rule, c.premises, d.rule, d.premises);
  }

  lemma {:induction false} HasKeyMeansIn(cur: seq<DerivationProof>, d: DerivationProof)
    requires CleanProof(d) && forall c :: c in cur ==> CleanProof(c)
    ensures HasKey(cur, ProofKey(d)) <==> d in cur
  {
    if cur != [] {
      HasKeyMeansIn(cur[1..], d);
      assert cur == [cur[0]] + cur[1..];
      if ProofKey(cur[0]) == ProofKey(d) { ProofKeyInjective(cur[0], d); }
    }
  }

  lemma SortedIn(cur: seq<DerivationProof>, d: DerivationProof)
    requires Ascending(cur, ProofOrder) && CleanProof(d) && d !in cur
    requires forall c :: c in cur ==> CleanProof(c)
    ensures Ascending(Sort(cur + [d], ProofOrder), ProofOrder)
    ensures forall c :: c in Sort(cur + [d], ProofOrder) <==> c in cur || c == d
  {
    var more := cur + [d];
    forall x, y | x in more && y in more && ProofOrder(x) == ProofOrder(y) ensures x == y {
      ProofOrderInjective(x, y);
    }
    AscendingIsSorted(cur, ProofOrder);
    SortSorts(more, ProofOrder);
    NoRepeats(more, Sort(more, ProofOrder));
    SortedIsAscending(Sort(more, ProofOrder), ProofOrder);
  }

  /** Recording a derivation adds just that one to the sorted list. */
  lemma RecordsOne(ds: Derivations, a: Atom, d: DerivationProof)
    requires CanonicalLists(ds) && CleanProof(d)
    requires forall c :: c in ProofsOf(ds, a) ==> CleanProof(c)
    ensures CanonicalLists(AddDerivation(ds, a, d))
    ensures forall b, c :: Recorded(AddDerivation(ds, a, d), b, c) <==> Recorded(ds, b, c) || (b == a && c == d)
  {
    var cur := ProofsOf(ds, a);
    HasKeyMeansIn(cur, d);
    if HasKey(cur, ProofKey(d)) {
      assert d in cur;
    } else {
      SortedIn(cur, d);
      var list := Sort(cur + [d], ProofOrder);
      assert d in list;
      assert AddDerivation(ds, a, d) == ds[a := list];
    }
  }

  /** An instance of a current rule with premises from the graph. */
  ghost predicate Justified(rules: seq<Rule>, graph: set<Atom>, a: Atom, d: DerivationProof)
  {
    Within(d.premises, graph) && exists r :: r in rules && r.name == d.rule && Fire(r, d.premises) == Some(a)
  }

  // ---------- the invariant

  ghost predicate GraphAgrees(st: State)
  {
    forall a :: a in st.graph <==> Believed(st.beliefs, a, POSITIVE) && !ResolvedFalse(st.resolutions, a)
  }

  ghost predicate ProofsJustified(st: State)
  {
    && CanonicalLists(st.derivations)
    && forall a, d :: Recorded(st.derivations, a, d) ==> Justified(st.rules, st.graph, a, d)
  }

  /** A derived belief names a rule and an atom it concludes from the graph. */
  ghost predicate BeliefsJustified(st: State)
  {
    forall b :: b in st.beliefs && IsDerived(b) ==>
      exists r, es :: r in st.rules && Within(es, st.graph) && Fire(r, es) == Some(b.atom)
                      && b == DerivedBelief(b.atom, r.name)
  }

  ghost predicate BaseFact(st: State, a: Atom)
  {
    exists b :: b in st.beliefs && b.atom == a && b.polarity == POSITIVE && !IsDerived(b)
  }

  /** Some recorded derivation of `a` rests on premises of smaller rank. */
  ghost predicate Grounded(st: State, rank: map<Atom, nat>, a: Atom)
    requires a in rank
  {
    exists d :: Recorded(st.derivations, a, d) && forall p :: p in d.premises ==> p in st.graph && p in rank && rank[p] < rank[a]
  }

  ghost predicate Ranked(st: State, rank: map<Atom, nat>, top: nat)
  {
    forall a :: a in st.graph ==> a in rank && rank[a] < top && (BaseFact(st, a) || Grounded(st, rank, a))
  }

  ghost predicate WellFounded(st: State) { exists rank: map<Atom, nat>, top: nat :: Ranked(st, rank, top) }

  ghost predicate Sound(st: State)
  {
    && (forall b :: b in st.beliefs ==> ValidBelief(b))
    && CleanState(st) && GraphAgrees(st) && ProofsJustified(st) && BeliefsJustified(st) && WellFounded(st)
  }

  /** Saturation only adds, and adds no base belief. */
  ghost predicate Grows(s: State, t: State)
  {
    && t.rules == s.rules && t.resolutions == s.resolutions && t.log == s.log
    && s.beliefs <= t.beliefs && s.graph <= t.graph
    && BaseBeliefs(t.beliefs) == BaseBeliefs(s.beliefs)
    && forall a, d :: Recorded(s.derivations, a, d) ==> Recorded(t.derivations, a, d)
  }

  ghost predicate InstanceOver(r: Rule, graph: set<Atom>, d: Derivation)
  {
    Fire(r, d.premises) == Some(d.head) && Within(d.premises, graph)
  }

  lemma CleanGraph(st: State, a: Atom)
    requires CleanState(st) && GraphAgrees(st) && a in st.graph
    ensures CleanAtom(a)
  {
    var b :| b in st.beliefs && b.atom == a && b.polarity == POSITIVE;
  }

  lemma JustifiedIsClean(st: State, a: Atom, d: DerivationProof)
    requires CleanState(st) && GraphAgrees(st) && Justified(st.rules, st.graph, a, d)
    ensures CleanProof(d)
  {
    forall p | p in d.premises ensures CleanAtom(p) { CleanGraph(st, p); }
  }

  lemma EmitGrows(st: State, r: Rule, d: Derivation)
    requires Sound(st) && r in st.rules && InstanceOver(r, st.graph, d)
    ensures Grows(st, Emit(st, r.name, d))
    ensures CanonicalLists(Emit(st, r.name, d).derivations)
    ensures forall a, c :: Recorded(Emit(st, r.name, d).derivations, a, c) <==>
              Recorded(st.derivations, a, c) || (a == d.head && c == DerivationProof(r.name, d.premises))
  {
    var proof := DerivationProof(r.name, d.premises);
    assert Justified(st.rules, st.graph, d.head, proof);
    JustifiedIsClean(st, d.head, proof);
    forall c | c in ProofsOf(st.derivations, d.head) ensures CleanProof(c) {
      assert Recorded(st.derivations, d.head, c);
      JustifiedIsClean(st, d.head, c);
    }
    RecordsOne(st.derivations, d.head, proof);
    assert IsDerived(DerivedBelief(d.head, r.name));
  }

  lemma EmitAgrees(st: State, r: Rule, d: Derivation)
    requires Sound(st) && r in st.rules && InstanceOver(r, st.graph, d)
    ensures GraphAgrees(Emit(st, r.name, d))
  {
    var t := Emit(st, r.name, d);
    var b := DerivedBelief(d.head, r.name);
    forall a ensures a in t.graph <==> Believed(t.beliefs, a, POSITIVE) && !ResolvedFalse(t.resolutions, a) {
      if Believed(st.beliefs, a, POSITIVE) {
        var c :| c in st.beliefs && c.atom == a && c.polarity == POSITIVE;
        assert c in t.beliefs;
      }
      if a == d.head && ValidBelief(b) { assert b in t.beliefs; }
    }
  }

  lemma EmitJustifies(st: State, r: Rule, d: Derivation)
    requires Sound(st) && r in st.rules && InstanceOver(r, st.graph, d)
    ensures ProofsJustified(Emit(st, r.name, d)) && BeliefsJustified(Emit(st, r.name, d))
  {
    var t := Emit(st, r.name, d);
    EmitGrows(st, r, d);
    forall a, c | Recorded(t.derivations, a, c) ensures Justified(t.rules, t.graph, a, c) {
      if Recorded(st.derivations, a, c) { assert Justified(st.rules, st.graph, a, c); }
    }
    forall b | b in t.beliefs && IsDerived(b)
      ensures exists q, es :: q in t.rules && Within(es, t.graph) && Fire(q, es) == Some(b.atom)
                              && b == DerivedBelief(b.atom, q.name)
    {
      if b in st.beliefs {
        var q, es :| q in st.rules && Within(es, st.graph) && Fire(q, es) == Some(b.atom) && b == DerivedBelief(b.atom, q.name);
        assert Within(es, t.graph);
      } else {
        assert Within(d.premises, t.graph) && Fire(r, d.premises) == Some(b.atom);
      }
    }
  }

  /** An atom that is new to the graph ranks above all that were there. */
  lemma EmitRanks(st: State, r: Rule, d: Derivation)
    requires Sound(st) && r in st.rules && InstanceOver(r, st.graph, d)
    ensures WellFounded(Emit(st, r.name, d))
  {
    var t := Emit(st, r.name, d);
    EmitGrows(st, r, d);
    var rank: map<Atom, nat>, top: nat :| Ranked(st, rank, top);
    if d.head in st.graph {
      forall a | a in t.graph ensures BaseFact(t, a) || Grounded(t, rank, a) { RankStays(st, t, rank, rank, a); }
      assert Ranked(t, rank, top);
    } else {
      var rank2 := rank[d.head := top];
      forall a | a in t.graph ensures a in rank2 && rank2[a] < top + 1 && (BaseFact(t, a) || Grounded(t, rank2, a)) {
        if a in st.graph {
          RankStays(st, t, rank, rank2, a);
        } else {
          assert Recorded(t.derivations, a, DerivationProof(r.name, d.premises));
        }
      }
      assert Ranked(t, rank2, top + 1);
    }
  }

  lemma RankStays(s: State, t: State, rank: map<Atom, nat>, rank2: map<Atom, nat>, a: Atom)
    requires s.beliefs <= t.beliefs && s.graph <= t.graph
    requires forall b, d :: Recorded(s.derivations, b, d) ==> Recorded(t.derivations, b, d)
    requires a in s.graph && a in rank && a in rank2 && rank2[a] == rank[a] && (BaseFact(s, a) || Grounded(s, rank, a))
    requires forall p :: p in s.graph && p in rank ==> p in rank2 && rank2[p] == rank[p]
    ensures BaseFact(t, a) || Grounded(t, rank2, a)
  {
    if BaseFact(s, a) {
      var b :| b in s.beliefs && b.atom == a && b.polarity == POSITIVE && !IsDerived(b);
      assert b in t.beliefs;
    } else {
      var c :| Recorded(s.derivations, a, c) && forall p :: p in c.premises ==> p in s.graph && p in rank && rank[p] < rank[a];
      assert Recorded(t.derivations, a, c);
    }
  }

  /** One derivation keeps the invariant. */
  lemma EmitSound(st: State, r: Rule, d: Derivation)
    requires Sound(st) && r in st.rules && InstanceOver(r, st.graph, d)
    ensures Sound(Emit(st, r.name, d)) && Grows(st, Emit(st, r.name, d))
  {
    EmitGrows(st, r, d);
    EmitAgrees(st, r, d);
    EmitJustifies(st, r, d);
    EmitRanks(st, r, d);
    forall p | p in d.premises ensures CleanAtom(p) { CleanGraph(st, p); }
    FireClean(r, d.premises);
  }

  lemma GrowsTransitive(s: State, t: State, u: State)
    requires Grows(s, t) && Grows(t, u)
    ensures Grows(s, u)
  {
  }

  /** The edges a round works on are the graph's. */
  lemma EdgesAreGraph(st: State)
    requires CleanState(st) && GraphAgrees(st)
    ensures forall a :: a in EdgesOf(st) <==> a in st.graph
    ensures AllClean(EdgesOf(st))
  {
    SortSorts(Listing(st.graph), AtomOrder);
    forall a | a in st.graph ensures CleanAtom(a) { CleanGraph(st, a); }
  }

  // ---------- an induction principle for the saturation loops

  /** Recording any instance over `graph` keeps `inv`. */
  ghost predicate Kept(inv: State -> bool, rules: seq<Rule>, graph: set<Atom>)
  {
    forall st, r, d :: inv(st) && r in rules && InstanceOver(r, graph, d) ==> inv(Emit(st, r.name, d))
  }

  lemma {:induction false} EmitAllKeeps(p: Progress, r: Rule, ds: seq<Derivation>,
        inv: State -> bool, rules: seq<Rule>, graph: set<Atom>)
    requires inv(p.st) && r in rules && Kept(inv, rules, graph)
    requires forall d :: d in ds ==> InstanceOver(r, graph, d)
    ensures inv(EmitAll(p, r.name, ds).st)
    decreases |ds|
  {
    if ds != [] {
      var q := Turn(p, r.name, ds[0]);
      assert ds[0] in ds && inv(q.st);
      assert forall d :: d in ds[1..] ==> d in ds;
      EmitAllKeeps(q, r, ds[1..], inv, rules, graph);
    }
  }

  lemma EvaluatedInstances(r: Rule, edges: seq<Atom>, max: int, graph: set<Atom>)
    requires forall a :: a in edges ==> a in graph
    ensures forall d :: d in EvaluatedIndexed(r, edges, IndexOf(edges), max) ==> InstanceOver(r, graph, d)
  {
    FastRefinesPlain(r, edges, max);
    EvaluatedSound(r, edges, max);
    forall d | d in EvaluatedPlain(r, edges, max) ensures InstanceOver(r, graph, d) {
      FireIsInstance(r, d.premises, d.head);
    }
  }

  lemma {:induction false} RoundKeeps(p: Progress, rules: seq<Rule>, edges: seq<Atom>,
        inv: State -> bool, all: seq<Rule>, graph: set<Atom>)
    requires inv(p.st) && Kept(inv, all, graph)
    requires (forall r :: r in rules ==> r in all) && (forall a :: a in edges ==> a in graph)
    ensures inv(Round(p, rules, edges).st)
    decreases |rules|
  {
    if rules != [] {
      var ds := EvaluatedIndexed(rules[0], edges, IndexOf(edges), p.remaining);
      EvaluatedInstances(rules[0], edges, p.remaining, graph);
      EmitAllKeeps(p, rules[0], ds, inv, all, graph);
      var q := EmitAll(p, rules[0].name, ds);
      if q.remaining > 0 {
        assert forall r :: r in rules[1..] ==> r in rules;
        RoundKeeps(q, rules[1..], edges, inv, all, graph);
      }
    }
  }

  // ---------- saturation keeps the invariant

  ghost predicate SoundSince(s: State, t: State) { Sound(t) && Grows(s, t) }

  lemma EmitSoundSince(s: State, st: State, r: Rule, d: Derivation)
    requires SoundSince(s, st) && r in s.rules && InstanceOver(r, s.graph, d)
    ensures SoundSince(s, Emit(st, r.name, d))
  {
    assert Within(d.premises, st.graph);
    EmitSound(st, r, d);
    GrowsTransitive(s, st, Emit(st, r.name, d));
  }

  lemma FullRoundSound(st: State, remaining: int)
    requires Sound(st)
    ensures SoundSince(st, FullRound(st, remaining).st)
  {
    EdgesAreGraph(st);
    var inv := (t: State) => SoundSince(st, t);
    forall t, r, d | inv(t) && r in st.rules && InstanceOver(r, st.graph, d) ensures inv(Emit(t, r.name, d)) {
      EmitSoundSince(st, t, r, d);
    }
    RoundKeeps(Progress(st, remaining, 0), st.rules, EdgesOf(st), inv, st.rules, st.graph);
  }

  /** Saturation keeps the invariant, however early the cap stops it. */
  lemma {:induction false} ApplyRulesSound(st: State, cap: int)
    requires Sound(st)
    ensures Sound(ApplyRules(st, cap)) && Grows(st, ApplyRules(st, cap))
    decreases cap
  {
    if cap > 0 {
      FullRoundSound(st, cap);
      var q := FullRound(st, cap);
      if q.remaining > 0 && q.added > 0 {
        ApplyRulesSound(q.st, q.remaining);
        GrowsTransitive(st, q.st, ApplyRules(q.st, q.remaining));
      }
    }
  }
}
