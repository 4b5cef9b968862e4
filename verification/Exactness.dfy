/** Under the bound, saturation computes the least fixpoint exactly, so the
    state after it depends on nothing but what was asserted. */
module Exactness {
  import opened Order
  import opened Facts
  import opened Rules
  import opened Evaluator
  import opened Datalog
  import opened Machine
  import opened Soundness

  /** What a state was told: base facts, denials, rules. */
  ghost function ProgramOf(st: State): Program
  {
    Program(
      set b | b in BaseBeliefs(st.beliefs) && b.polarity == POSITIVE :: b.atom,
      set a | a in st.resolutions && ResolvedFalse(st.resolutions, a),
      set r | r in st.rules)
  }

  /** The graph is the least fixpoint, the derived beliefs are all its
      conclusions, and the derivation lists hold all its instances. */
  ghost predicate Saturated(st: State)
  {
    && st.graph == Lfp(ProgramOf(st))
    && (forall b :: b in st.beliefs && IsDerived(b) <==> b in Conclusions(ProgramOf(st).rules, st.graph))
    && CanonicalLists(st.derivations)
    && (forall a, d :: Recorded(st.derivations, a, d) <==> Justified(st.rules, st.graph, a, d))
  }

  lemma SameProgram(s: State, t: State)
    requires BaseBeliefs(s.beliefs) == BaseBeliefs(t.beliefs) && s.resolutions == t.resolutions
    requires forall r :: r in s.rules <==> r in t.rules
    ensures ProgramOf(s) == ProgramOf(t)
  {
  }

  // ---------- sound: the graph never leaves the least fixpoint

  lemma RankedGrounds(st: State, rank: map<Atom, nat>, top: nat, a: Atom)
    requires Ranked(st, rank, top) && a in st.graph
    ensures a in rank && (BaseFact(st, a) || Grounded(st, rank, a))
  {
  }

  lemma {:induction false} RankedIsProvable(st: State, rank: map<Atom, nat>, top: nat, a: Atom)
    requires Sound(st) && Ranked(st, rank, top) && a in st.graph
    ensures a in Lfp(ProgramOf(st))
    decreases if a in rank then rank[a] else 0
  {
    hide Lfp, CleanState, WellFounded, BeliefsJustified, CanonicalLists, Fire, Ranked;
    RankedGrounds(st, rank, top, a);
    var p := ProgramOf(st);
    LfpClosed(p);
    var b0 :| b0 in st.beliefs && b0.atom == a && b0.polarity == POSITIVE;
    assert Admissible(p, a);
    if BaseFact(st, a) {
      var b :| b in st.beliefs && b.atom == a && b.polarity == POSITIVE && !IsDerived(b);
      assert b in BaseBeliefs(st.beliefs);
      assert a in p.facts;
    } else {
      var d :| Recorded(st.derivations, a, d) && forall q :: q in d.premises ==> q in st.graph && q in rank && rank[q] < rank[a];
      forall q | q in d.premises ensures q in Lfp(p) { RankedIsProvable(st, rank, top, q); }
      assert Justified(st.rules, st.graph, a, d);
      var r :| r in st.rules && r.name == d.rule && Fire(r, d.premises) == Some(a);
      assert r in p.rules && Within(d.premises, Lfp(p));
      LfpStep(p, r, d.premises);
    }
  }

  /** Caps or not, whatever is in the graph has a finite proof tree. */
  lemma GraphIsProvable(st: State)
    requires Sound(st)
    ensures st.graph <= Lfp(ProgramOf(st))
  {
    var rank: map<Atom, nat>, top: nat :| Ranked(st, rank, top);
    forall a | a in st.graph ensures a in Lfp(ProgramOf(st)) {
      RankedIsProvable(st, rank, top, a);
    }
  }

  /** Without base facts nothing is derived by rules that have premises. */
  lemma NothingFromNothing(st: State)
    requires Sound(st) && BaseBeliefs(st.beliefs) == {} && forall r :: r in st.rules ==> r.premises != []
    ensures st.beliefs == {}
  {
    hide Lfp, ProofsJustified, WellFounded, CleanState;
    var p := ProgramOf(st);
    GraphIsProvable(st);
    forall r, es | r in st.rules && Within(es, {}) ensures Fire(r, es).None? { NoPremises(r, es); }
    assert p.facts == {};
    LfpLeast(p, {});
    assert st.graph == {};
    assert forall b :: b in st.beliefs ==> IsDerived(b) || b in BaseBeliefs(st.beliefs);
  }

  lemma NoPremises(r: Rule, es: seq<Atom>)
    requires Within(es, {}) && r.premises != []
    ensures Fire(r, es).None?
  {
    assert forall i :: 0 <= i < |es| ==> es[i] in es;
  }

  // ---------- complete: under the bound nothing is cut off

  ghost function Wanted(st: State): set<Belief> { Conclusions(ProgramOf(st).rules, Lfp(ProgramOf(st))) }

  /** What remains beyond the beliefs still to come. */
  ghost function Balance(start: State, p: Progress): int { p.remaining - |Wanted(start) - p.st.beliefs| }

  /** The balance exceeds any rule's instances, so no evaluation is truncated
      and no round is cut short. */
  ghost predicate Slack(start: State, p: Progress)
  {
    forall r :: r in start.rules ==> Balance(start, p) > |Instances(r, Lfp(ProgramOf(start)))|
  }

  /** The derivation is recorded and its conclusion believed. */
  ghost predicate Reached(st: State, r: Rule, d: Derivation)
  {
    && Recorded(st.derivations, d.head, DerivationProof(r.name, d.premises))
    && (ValidAtom(d.head) ==> DerivedBelief(d.head, r.name) in st.beliefs)
  }

  lemma ReachedStays(s: State, t: State, r: Rule, d: Derivation)
    requires Grows(s, t) && Reached(s, r, d)
    ensures Reached(t, r, d)
  {
  }

  lemma EmitReaches(st: State, r: Rule, d: Derivation)
    requires Sound(st) && r in st.rules && InstanceOver(r, st.graph, d)
    ensures Reached(Emit(st, r.name, d), r, d)
  {
    EmitGrows(st, r, d);
    assert RULE_PREFIX + r.name != [];
  }

  lemma WantedHead(start: State, st: State, r: Rule, d: Derivation)
    requires SoundSince(start, st) && r in start.rules && InstanceOver(r, start.graph, d) && ValidAtom(d.head)
    ensures DerivedBelief(d.head, r.name) in Wanted(start)
  {
    var p := ProgramOf(start);
    SameProgram(start, st);
    GraphIsProvable(st);
    assert Within(d.premises, Lfp(p));
    assert d.premises in Instances(r, Lfp(p)) && r in p.rules;
  }

  lemma OneLess(w: set<Belief>, s: set<Belief>, b: Belief)
    requires b in w && b !in s
    ensures |w - (s + {b})| == |w - s| - 1
    ensures |s + {b}| == |s| + 1
  {
    assert w - s == (w - (s + {b})) + {b};
  }

  /** A counted step spends one of the remaining and reaches one more wanted belief. */
  lemma CountKeepsBalance(start: State, p: Progress, r: Rule, d: Derivation)
    requires SoundSince(start, p.st) && r in start.rules && InstanceOver(r, start.graph, d) && Slack(start, p)
    ensures var q := Turn(p, r.name, d);
            Balance(start, q) == Balance(start, p) && q.remaining > 0 && (q.added == p.added ==> q.st.beliefs == p.st.beliefs)
  {
    hide Wanted, Instances, Lfp, ProgramOf, Emit, SoundSince, InstanceOver, ValidAtom, DerivedBelief;
    var b := DerivedBelief(d.head, r.name);
    EmitBelief(p.st, r.name, d);
    CountGrowsWhenWritten(p.st, r.name, d);
    if Writes(p.st, r.name, d) {
      WantedHead(start, p.st, r, d);
      OneLess(Wanted(start), p.st.beliefs, b);
    }
    assert Balance(start, Turn(p, r.name, d)) > |Instances(r, Lfp(ProgramOf(start)))|;
  }

  lemma EmitBelief(st: State, rule: Str, d: Derivation)
    ensures Emit(st, rule, d).beliefs ==
            if ValidAtom(d.head) then st.beliefs + {DerivedBelief(d.head, rule)} else st.beliefs
  {
    assert RULE_PREFIX + rule != [];
  }

  lemma {:induction false} EmitAllReaches(start: State, p: Progress, r: Rule, ds: seq<Derivation>)
    requires SoundSince(start, p.st) && r in start.rules && Slack(start, p)
    requires forall d :: d in ds ==> InstanceOver(r, start.graph, d)
    ensures var q := EmitAll(p, r.name, ds);
            && SoundSince(start, q.st) && Grows(p.st, q.st) && Balance(start, q) == Balance(start, p)
            && (forall d :: d in ds ==> Reached(q.st, r, d))
            && (q.added == p.added ==> q.st.beliefs == p.st.beliefs)
    decreases |ds|
  {
    if ds != [] {
      var d := ds[0];
      var q := Turn(p, r.name, d);
      assert d in ds && Within(d.premises, p.st.graph);
      EmitSoundSince(start, p.st, r, d);
      EmitSound(p.st, r, d);
      EmitReaches(p.st, r, d);
      CountKeepsBalance(start, p, r, d);
      EmitAllReaches(start, q, r, ds[1..]);
      var last := EmitAll(q, r.name, ds[1..]);
      ReachedStays(q.st, last.st, r, d);
      GrowsTransitive(p.st, q.st, last.st);
      assert EmitAll(p, r.name, ds) == last;
      forall e | e in ds ensures Reached(last.st, r, e) {
        assert e == d || e in ds[1..];
      }
    }
  }

  lemma {:induction false} DistinctPremises(ds: seq<Derivation>)
    requires forall i, j :: 0 <= i < j < |ds| ==> ds[i].premises != ds[j].premises
    ensures |set d | d in ds :: d.premises| == |ds|
  {
    if ds != [] {
      DistinctPremises(ds[1..]);
      var rest := set d | d in ds[1..] :: d.premises;
      assert ds == [ds[0]] + ds[1..];
      assert (set d | d in ds :: d.premises) == rest + {ds[0].premises};
      assert ds[0].premises !in rest;
    }
  }

  /** With slack, an evaluation is not truncated: it finds every instance. */
  lemma EvaluationIsComplete(start: State, p: Progress, r: Rule, edges: seq<Atom>, d: Derivation)
    requires Sound(start) && r in start.rules && Slack(start, p)
    requires (forall a :: a in edges <==> a in start.graph) && AllClean(edges)
    requires InstanceOver(r, start.graph, d)
    ensures d in EvaluatedIndexed(r, edges, IndexOf(edges), p.remaining)
  {
    var ds := EvaluatedPlain(r, edges, p.remaining);
    var lfp := Lfp(ProgramOf(start));
    FastRefinesPlain(r, edges, p.remaining);
    EvaluatedSound(r, edges, p.remaining);
    GraphIsProvable(start);
    forall e | e in ds ensures Fire(r, e.premises) == Some(e.head) && e.premises in Instances(r, lfp) {
      FireIsInstance(r, e.premises, e.head);
      assert Within(e.premises, lfp);
    }
    forall i, j | 0 <= i < j < |ds| ensures ds[i].premises != ds[j].premises {
      assert ds[i] in ds && ds[j] in ds && ds[i] != ds[j];
    }
    DistinctPremises(ds);
    SubsetSize(set e | e in ds :: e.premises, Instances(r, lfp));
    assert |ds| < p.remaining;
    FireIsInstance(r, d.premises, d.head);
    EvaluatedComplete(r, edges, p.remaining, d);
  }

  lemma {:induction false} RoundReaches(start: State, p: Progress, rules: seq<Rule>, edges: seq<Atom>)
    requires Sound(start) && SoundSince(start, p.st) && Slack(start, p)
    requires forall r :: r in rules ==> r in start.rules
    requires (forall a :: a in edges <==> a in start.graph) && AllClean(edges)
    ensures var q := Round(p, rules, edges);
            && SoundSince(start, q.st) && Grows(p.st, q.st) && Balance(start, q) == Balance(start, p)
            && (forall r, d :: r in rules && InstanceOver(r, start.graph, d) ==> Reached(q.st, r, d))
            && (q.added == p.added ==> q.st.beliefs == p.st.beliefs)
    decreases |rules|
  {
    if rules != [] {
      var r := rules[0];
      assert r in rules;
      var ds := EvaluatedIndexed(r, edges, IndexOf(edges), p.remaining);
      EvaluatedInstances(r, edges, p.remaining, start.graph);
      EmitAllReaches(start, p, r, ds);
      var q := EmitAll(p, r.name, ds);
      assert q.remaining > 0;
      assert forall x :: x in rules[1..] ==> x in rules;
      RoundReaches(start, q, rules[1..], edges);
      var last := Round(q, rules[1..], edges);
      assert Round(p, rules, edges) == last;
      GrowsTransitive(p.st, q.st, last.st);
      forall x, d | x in rules && InstanceOver(x, start.graph, d) ensures Reached(last.st, x, d) {
        if x == r {
          EvaluationIsComplete(start, p, r, edges, d);
          ReachedStays(q.st, last.st, r, d);
        } else {
          assert x in rules[1..];
        }
      }
    }
  }

  lemma FullRoundReaches(st: State, remaining: int)
    requires Sound(st) && Slack(st, Progress(st, remaining, 0))
    ensures var q := FullRound(st, remaining);
            && SoundSince(st, q.st) && Balance(st, q) == Balance(st, Progress(st, remaining, 0))
            && (forall r, d :: r in st.rules && InstanceOver(r, st.graph, d) ==> Reached(q.st, r, d))
            && (q.added == 0 ==> q.st.beliefs == st.beliefs)
  {
    EdgesAreGraph(st);
    RoundReaches(st, Progress(st, remaining, 0), st.rules, EdgesOf(st));
  }

  lemma SameBeliefsSameGraph(s: State, t: State)
    requires GraphAgrees(s) && GraphAgrees(t) && s.beliefs == t.beliefs && s.resolutions == t.resolutions
    ensures s.graph == t.graph
  {
  }

  /** A state that has reached every instance over its own graph is saturated. */
  lemma QuietIsSaturated(st: State)
    requires Sound(st)
    requires forall r, d :: r in st.rules && InstanceOver(r, st.graph, d) ==> Reached(st, r, d)
    ensures Saturated(st)
  {
    var p := ProgramOf(st);
    GraphIsProvable(st);
    forall a | a in p.facts && Admissible(p, a) ensures a in st.graph {
      assert Believed(st.beliefs, a, POSITIVE);
    }
    forall r, es | r in p.rules && Within(es, st.graph) && Fire(r, es).Some? && Admissible(p, Fire(r, es).value)
      ensures Fire(r, es).value in st.graph
    {
      var a := Fire(r, es).value;
      assert InstanceOver(r, st.graph, Derivation(a, es));
      assert Reached(st, r, Derivation(a, es));
      assert Believed(st.beliefs, a, POSITIVE);
    }
    LfpLeast(p, st.graph);
    forall b ensures b in st.beliefs && IsDerived(b) <==> b in Conclusions(p.rules, st.graph) {
      if b in Conclusions(p.rules, st.graph) {
        var r, es :| r in p.rules && es in Instances(r, st.graph) && ValidAtom(Fire(r, es).value)
                     && b == DerivedBelief(Fire(r, es).value, r.name);
        assert InstanceOver(r, st.graph, Derivation(Fire(r, es).value, es));
        assert Reached(st, r, Derivation(Fire(r, es).value, es));
      }
      if b in st.beliefs && IsDerived(b) {
        var r, es :| r in st.rules && Within(es, st.graph) && Fire(r, es) == Some(b.atom) && b == DerivedBelief(b.atom, r.name);
        assert r in p.rules && es in Instances(r, st.graph);
      }
    }
    forall a, d | Justified(st.rules, st.graph, a, d) ensures Recorded(st.derivations, a, d) {
      var r :| r in st.rules && r.name == d.rule && Fire(r, d.premises) == Some(a);
      assert InstanceOver(r, st.graph, Derivation(a, d.premises));
      assert Reached(st, r, Derivation(a, d.premises));
      assert DerivationProof(r.name, d.premises) == d;
    }
  }

  lemma QuietRound(st: State, q: State)
    requires Sound(st) && SoundSince(st, q) && q.beliefs == st.beliefs
    requires forall r, d :: r in st.rules && InstanceOver(r, st.graph, d) ==> Reached(q, r, d)
    ensures Saturated(q)
  {
    SameBeliefsSameGraph(st, q);
    QuietIsSaturated(q);
  }

  lemma BalanceCarries(st: State, q: Progress)
    requires Grows(st, q.st)
    ensures Wanted(q.st) == Wanted(st) && Balance(q.st, Progress(q.st, q.remaining, 0)) == Balance(st, q)
    ensures Slack(st, q) ==> Slack(q.st, Progress(q.st, q.remaining, 0))
  {
    SameProgram(st, q.st);
  }

  lemma NoRulesNothingAdded(p: Progress, rules: seq<Rule>, edges: seq<Atom>)
    ensures rules == [] ==> Round(p, rules, edges) == p
  {
  }

  /** Saturation ends saturated, in at most one round more than there are
      wanted beliefs left to write. */
  lemma {:induction false} SaturationIsExact(st: State, cap: int)
    requires Sound(st) && cap > 0 && Slack(st, Progress(st, cap, 0))
    ensures Saturated(ApplyRules(st, cap))
    ensures Rounds(st, cap) <= |Wanted(st) - st.beliefs| + 1
    decreases cap
  {
    hide Sound, SoundSince, InstanceOver, Reached, Saturated, Wanted, Instances, Lfp, ProgramOf, Grows, EdgesOf, Round;
    FullRoundReaches(st, cap);
    var q := FullRound(st, cap);
    if q.added == 0 {
      QuietRound(st, q.st);
    } else {
      NoRulesNothingAdded(Progress(st, cap, 0), st.rules, EdgesOf(st));
      assert st.rules[0] in st.rules;
      assert q.remaining > 0;
      BalanceCarries(st, q);
      SaturationIsExact(q.st, q.remaining);
    }
  }

  lemma BoundGivesSlack(st: State, cap: int)
    requires Bounded(ProgramOf(st), cap)
    ensures Slack(st, Progress(st, cap, 0))
  {
    SubsetSize(Wanted(st) - st.beliefs, Wanted(st));
    forall r | r in st.rules ensures Balance(st, Progress(st, cap, 0)) > |Instances(r, Lfp(ProgramOf(st)))| {
      assert r in ProgramOf(st).rules;
    }
  }

  /** Exactness: under D + M < cap, saturation from any sound state ends with
      the least fixpoint, in at most D + 1 rounds. */
  lemma ApplyRulesExact(st: State, cap: int)
    requires Sound(st) && cap > 0 && Bounded(ProgramOf(st), cap)
    ensures Saturated(ApplyRules(st, cap)) && Sound(ApplyRules(st, cap)) && Grows(st, ApplyRules(st, cap))
    ensures ApplyRules(st, cap).graph == Lfp(ProgramOf(st))
    ensures Rounds(st, cap) <= |Conclusions(ProgramOf(st).rules, Lfp(ProgramOf(st)))| + 1
  {
    BoundGivesSlack(st, cap);
    SaturationIsExact(st, cap);
    SubsetSize(Wanted(st) - st.beliefs, Wanted(st));
    ApplyRulesSound(st, cap);
    SameProgram(st, ApplyRules(st, cap));
  }

  /** A saturated state is determined by what it was told. */
  lemma SaturatedIsUnique(s: State, t: State)
    requires Saturated(s) && Saturated(t)
    requires BaseBeliefs(s.beliefs) == BaseBeliefs(t.beliefs) && s.resolutions == t.resolutions
    requires forall r :: r in s.rules <==> r in t.rules
    ensures s.beliefs == t.beliefs && s.graph == t.graph && s.derivations == t.derivations
  {
    SameProgram(s, t);
    forall b ensures b in s.beliefs <==> b in t.beliefs {
      assert !IsDerived(b) ==> (b in s.beliefs <==> b in BaseBeliefs(s.beliefs)) && (b in t.beliefs <==> b in BaseBeliefs(t.beliefs));
    }
    forall a, d ensures Recorded(s.derivations, a, d) <==> Recorded(t.derivations, a, d) {
      assert Justified(s.rules, s.graph, a, d) <==> Justified(t.rules, t.graph, a, d);
    }
    SameLists(s.derivations, t.derivations);
  }

  lemma SameLists(ds: Derivations, es: Derivations)
    requires CanonicalLists(ds) && CanonicalLists(es)
    requires forall a, d :: Recorded(ds, a, d) <==> Recorded(es, a, d)
    ensures ds == es
  {
    forall a ensures a in ds <==> a in es {
      assert a in ds ==> Recorded(ds, a, ds[a][0]);
      assert a in es ==> Recorded(es, a, es[a][0]);
    }
    forall a | a in ds ensures ds[a] == es[a] {
      assert forall d :: d in ds[a] <==> Recorded(ds, a, d);
      assert forall d :: d in es[a] <==> Recorded(es, a, d);
      AscendingUnique(ds[a], es[a], ProofOrder);
    }
  }
}
