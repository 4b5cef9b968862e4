/** Without the bound: a round stops saturation exactly when the derivations
    found within the limit are all known.  If no evaluation was cut off, the end
    is saturated all the same; if one was, a run of the engine can lose atoms
    that it should prove (pkg/engine/rules.go). */
module Truncation {
  import opened Order
  import opened Facts
  import opened Rules
  import opened Evaluator
  import opened Datalog
  import opened Machine
  import opened Soundness
  import opened Exactness
  import opened Lifecycle
  import opened Codec
  import opened Wal
  import opened Theorems
  import opened Recovery
  import opened Formats

  // ---------- what a limit lets through, rule by rule

  /** From `p` to `q` just these derivations of the rule are recorded and, where
      their conclusions are valid, believed and put into the graph unless resolved
      false; and each belief that is new takes one of the remaining. */
  ghost predicate Served(p: Progress, q: Progress, rule: Str, ds: seq<Derivation>)
  {
    && q.st.rules == p.st.rules && q.st.resolutions == p.st.resolutions && q.st.log == p.st.log
    && q.st.beliefs == p.st.beliefs + (set d | d in ds && ValidAtom(d.head) :: Belief(d.head, 1, RULE_PREFIX + rule, 0))
    && (forall a :: a in q.st.graph <==>
          a in p.st.graph || (ValidAtom(a) && !ResolvedFalse(p.st.resolutions, a) && exists d :: d in ds && d.head == a))
    && (forall a, c :: Recorded(q.st.derivations, a, c) <==>
          Recorded(p.st.derivations, a, c) || exists d :: d in ds && d.head == a && c == DerivationProof(rule, d.premises))
    && p.remaining - q.remaining == |q.st.beliefs| - |p.st.beliefs| == q.added - p.added
  }

  lemma TurnBelieves(p: Progress, rule: Str, d: Derivation)
    ensures var q := Turn(p, rule, d);
            && q.st.beliefs == p.st.beliefs + (set e | e in [d] && ValidAtom(e.head) :: Belief(e.head, 1, RULE_PREFIX + rule, 0))
            && p.remaining - q.remaining == |q.st.beliefs| - |p.st.beliefs| == q.added - p.added
  {
    hide Emit;
    var b := DerivedBelief(d.head, rule);
    EmitBelief(p.st, rule, d);
    CountGrowsWhenWritten(p.st, rule, d);
    assert [d][0] == d && forall e :: e in [d] <==> e == d;
    assert (set e | e in [d] && ValidAtom(e.head) :: Belief(e.head, 1, RULE_PREFIX + rule, 0)) == if ValidAtom(d.head) then {b} else {};
    if !Writes(p.st, rule, d) {
      assert ValidAtom(d.head) ==> p.st.beliefs + {b} == p.st.beliefs;
      assert p.st.beliefs + {} == p.st.beliefs;
    } else {
      assert |p.st.beliefs + {b}| == |p.st.beliefs| + 1;
    }
  }

  lemma TurnEnters(st: State, rule: Str, d: Derivation)
    ensures var t := Emit(st, rule, d);
            && t.rules == st.rules && t.resolutions == st.resolutions && t.log == st.log
            && forall a :: a in t.graph <==>
                 a in st.graph || (ValidAtom(a) && !ResolvedFalse(st.resolutions, a) && exists e :: e in [d] && e.head == a)
  {
    assert RULE_PREFIX + rule != [];
    assert [d][0] == d && forall e :: e in [d] <==> e == d;
  }

  lemma TurnServes(start: State, p: Progress, r: Rule, d: Derivation)
    requires SoundSince(start, p.st) && r in start.rules && InstanceOver(r, start.graph, d)
    ensures SoundSince(start, Turn(p, r.name, d).st) && Served(p, Turn(p, r.name, d), r.name, [d])
  {
    hide Sound, Fire, Emit, ValidAtom, ResolvedFalse, Recorded;
    assert Within(d.premises, p.st.graph);
    EmitSoundSince(start, p.st, r, d);
    EmitGrows(p.st, r, d);
    TurnBelieves(p, r.name, d);
    TurnEnters(p.st, r.name, d);
    assert [d][0] == d && forall e :: e in [d] <==> e == d;
  }

  lemma ServedMore(p: Progress, m: Progress, q: Progress, rule: Str, d: Derivation, ds: seq<Derivation>)
    requires Served(p, m, rule, [d]) && Served(m, q, rule, ds)
    ensures Served(p, q, rule, [d] + ds)
  {
    hide ValidAtom, ResolvedFalse, Recorded;
    assert [d][0] == d && forall e :: e in [d] <==> e == d;
    assert forall e :: e in [d] + ds <==> e == d || e in ds;
  }

  lemma ServedNone(p: Progress, rule: Str)
    ensures Served(p, p, rule, [])
  {
  }

  /** With at most as many derivations as there are remaining, all are served. */
  lemma {:induction false} EmitAllServes(start: State, p: Progress, r: Rule, ds: seq<Derivation>)
    requires SoundSince(start, p.st) && r in start.rules && |ds| <= p.remaining
    requires forall d :: d in ds ==> InstanceOver(r, start.graph, d)
    ensures var q := EmitAll(p, r.name, ds); SoundSince(start, q.st) && Served(p, q, r.name, ds)
    decreases |ds|
  {
    hide Served, SoundSince, InstanceOver, Turn;
    if ds == [] {
      ServedNone(p, r.name);
    } else {
      var q := Turn(p, r.name, ds[0]);
      assert ds[0] in ds && forall d :: d in ds[1..] ==> d in ds;
      TurnServes(start, p, r, ds[0]);
      TurnCounts(p, r.name, ds[0]);
      EmitAllServes(start, q, r, ds[1..]);
      ServedMore(p, q, EmitAll(q, r.name, ds[1..]), r.name, ds[0], ds[1..]);
      assert ds == [ds[0]] + ds[1..];
      if q.remaining <= 0 { assert ds[1..] == [] && EmitAll(q, r.name, []) == q; }
    }
  }

  /** A round serves the rules in their order, each with the results that its
      evaluation over the edges of the round's start keeps within what then
      remains, and ends early exactly if nothing remains. */
  lemma {:induction false} RoundServes(start: State, p: Progress, rules: seq<Rule>, edges: seq<Atom>)
    returns (turns: seq<Progress>)
    requires SoundSince(start, p.st) && p.remaining > 0
    requires (forall r :: r in rules ==> r in start.rules) && forall a :: a in edges ==> a in start.graph
    ensures 1 <= |turns| <= |rules| + 1 && turns[0] == p && turns[|turns| - 1] == Round(p, rules, edges)
    ensures forall i :: 0 <= i < |turns| - 1 ==>
              turns[i].remaining > 0
              && Served(turns[i], turns[i + 1], rules[i].name, EvaluatedPlain(rules[i], edges, turns[i].remaining))
    ensures turns[|turns| - 1].remaining >= 0 && (|turns| < |rules| + 1 ==> turns[|turns| - 1].remaining == 0)
    decreases |rules|
  {
    hide Served, SoundSince, EmitAll, EvaluatedPlain, EvaluatedIndexed;
    if rules == [] {
      turns := [p];
    } else {
      var r := rules[0];
      assert r in rules && forall s :: s in rules[1..] ==> s in rules;
      FastRefinesPlain(r, edges, p.remaining);
      var ds := EvaluatedPlain(r, edges, p.remaining);
      EvaluatedInstances(r, edges, p.remaining, start.graph);
      EvaluatedSound(r, edges, p.remaining);
      EmitAllServes(start, p, r, ds);
      EmitAllCounts(p, r.name, ds);
      var q := EmitAll(p, r.name, ds);
      if q.remaining <= 0 {
        turns := [p, q];
      } else {
        var rest := RoundServes(start, q, rules[1..], edges);
        turns := [p] + rest;
        forall i | 0 <= i < |turns| - 1
          ensures turns[i].remaining > 0
                  && Served(turns[i], turns[i + 1], rules[i].name, EvaluatedPlain(rules[i], edges, turns[i].remaining))
        {
          if i > 0 { assert turns[i] == rest[i - 1] && turns[i + 1] == rest[i] && rules[i] == rules[1..][i - 1]; }
        }
      }
    }
  }

  /** The edges of a round are the graph's, each once, by subject, predicate and object. */
  lemma EdgesInOrder(st: State)
    ensures AtomsAscend(EdgesOf(st)) && forall a :: a in EdgesOf(st) <==> a in st.graph
  {
    AtomOrderInjective(Listing(st.graph));
    SortAscends(Listing(st.graph), AtomOrder);
    AscendingAtoms(EdgesOf(st));
  }

  /** Saturation is such rounds, one after another: each with what the last one
      left, while something remains and the last one added something. */
  lemma {:induction false} SaturatesInRounds(st: State, cap: int) returns (rounds: seq<Progress>)
    requires cap > 0
    ensures |rounds| == Rounds(st, cap) + 1 && rounds[0].st == st && rounds[0].remaining == cap
    ensures rounds[|rounds| - 1].st == ApplyRules(st, cap)
    ensures forall i :: 0 <= i < |rounds| - 1 ==>
              rounds[i].remaining > 0 && (i > 0 ==> rounds[i].added > 0)
              && rounds[i + 1] == Round(Progress(rounds[i].st, rounds[i].remaining, 0), st.rules, EdgesOf(rounds[i].st))
    ensures |rounds| >= 2 && (rounds[|rounds| - 1].added == 0 || rounds[|rounds| - 1].remaining == 0)
    decreases cap
  {
    hide Round, EdgesOf;
    var q := FullRound(st, cap);
    RoundCounts(Progress(st, cap, 0), st.rules, EdgesOf(st));
    RoundTellsNothing(Progress(st, cap, 0), st.rules, EdgesOf(st));
    if q.remaining <= 0 || q.added == 0 {
      rounds := [Progress(st, cap, 0), q];
    } else {
      var rest := SaturatesInRounds(q.st, q.remaining);
      rounds := [Progress(st, cap, 0), q] + rest[1..];
      forall i | 0 <= i < |rounds| - 1
        ensures rounds[i].remaining > 0 && (i > 0 ==> rounds[i].added > 0)
                && rounds[i + 1] == Round(Progress(rounds[i].st, rounds[i].remaining, 0), st.rules, EdgesOf(rounds[i].st))
      {
        if i > 0 { assert rounds[i + 1] == rest[i]; }
        if i > 1 { assert rounds[i] == rest[i - 1]; }
      }
    }
  }

  // ---------- when a round adds nothing

  lemma {:induction false} EmitAllQuiet(p: Progress, rule: Str, ds: seq<Derivation>)
    requires p.remaining > 0
    ensures var q := EmitAll(p, rule, ds);
            && (q.added == p.added <==> forall d :: d in ds ==> !Writes(p.st, rule, d))
            && (q.added == p.added ==> q.st.beliefs == p.st.beliefs)
    decreases |ds|
  {
    hide Emit;
    if ds != [] {
      var q := Turn(p, rule, ds[0]);
      assert forall d :: d in ds <==> d == ds[0] || d in ds[1..];
      CountGrowsWhenWritten(p.st, rule, ds[0]);
      if q.remaining > 0 {
        EmitAllQuiet(q, rule, ds[1..]);
        if !Writes(p.st, rule, ds[0]) {
          assert forall d :: Writes(q.st, rule, d) == Writes(p.st, rule, d);
        }
      }
    }
  }

  lemma {:induction false} RoundQuiet(p: Progress, rules: seq<Rule>, edges: seq<Atom>)
    requires p.remaining > 0
    ensures var q := Round(p, rules, edges);
            && (q.added == p.added <==> forall r, d :: r in rules && d in EvaluatedPlain(r, edges, p.remaining) ==> !Writes(p.st, r.name, d))
            && (q.added == p.added ==> q.st.beliefs == p.st.beliefs)
    decreases |rules|
  {
    hide EmitAll, EvaluatedPlain, EvaluatedIndexed;
    if rules != [] {
      var r := rules[0];
      assert forall s :: s in rules <==> s == r || s in rules[1..];
      FastRefinesPlain(r, edges, p.remaining);
      var ds := EvaluatedPlain(r, edges, p.remaining);
      var q := EmitAll(p, r.name, ds);
      EmitAllQuiet(p, r.name, ds);
      if q.remaining > 0 {
        RoundQuiet(q, rules[1..], edges);
        if q.added == p.added {
          assert forall s, d :: Writes(q.st, s, d) == Writes(p.st, s, d);
        }
      }
    }
  }

  /** The first round adds nothing, and saturation stops with it, exactly when
      every derivation found within the limit concludes what is already known;
      whether more derivations were cut off does not matter. */
  lemma StopsAtOnce(st: State, cap: int)
    requires cap > 0
    ensures FullRound(st, cap).added == 0 <==>
            forall r, d :: r in st.rules && d in EvaluatedPlain(r, EdgesOf(st), cap) ==> !Writes(st, r.name, d)
    ensures FullRound(st, cap).added == 0 ==> ApplyRules(st, cap).beliefs == st.beliefs && Rounds(st, cap) == 1
  {
    hide Round, EvaluatedPlain, Writes;
    RoundQuiet(Progress(st, cap, 0), st.rules, EdgesOf(st));
  }

  // ---------- when the end is not cut off

  /** A quiet run over one rule's derivations records them all. */
  lemma {:induction false} QuietEmitAll(start: State, p: Progress, r: Rule, ds: seq<Derivation>)
    requires SoundSince(start, p.st) && r in start.rules && p.remaining > 0
    requires forall d :: d in ds ==> InstanceOver(r, start.graph, d)
    requires EmitAll(p, r.name, ds).added == p.added
    ensures var q := EmitAll(p, r.name, ds);
            SoundSince(start, q.st) && Grows(p.st, q.st) && forall d :: d in ds ==> Reached(q.st, r, d)
    decreases |ds|
  {
    hide Emit, Sound, Reached;
    if ds == [] {
      GrowsItself(p.st);
    } else {
      var d, q, last := ds[0], Turn(p, r.name, ds[0]), EmitAll(p, r.name, ds);
      assert forall e :: e in ds <==> e == d || e in ds[1..];
      assert d in ds && InstanceOver(r, start.graph, d);
      assert Within(d.premises, p.st.graph);
      EmitSoundSince(start, p.st, r, d);
      EmitGrows(p.st, r, d);
      EmitReaches(p.st, r, d);
      QuietEmitAll(start, q, r, ds[1..]);
      ReachedStays(q.st, last.st, r, d);
      GrowsTransitive(p.st, q.st, last.st);
    }
  }

  lemma GrowsItself(st: State)
    ensures Grows(st, st)
  {
  }

  /** A quiet round in which no evaluation is cut off records every instance. */
  lemma {:induction false} QuietRoundReaches(start: State, p: Progress, rules: seq<Rule>, edges: seq<Atom>)
    requires SoundSince(start, p.st) && p.remaining > 0
    requires forall r :: r in rules ==> r in start.rules && |Instances(r, start.graph)| <= p.remaining
    requires (forall a :: a in edges <==> a in start.graph) && AllClean(edges)
    requires Round(p, rules, edges).added == p.added
    ensures var q := Round(p, rules, edges);
            && SoundSince(start, q.st) && Grows(p.st, q.st)
            && forall r, d :: r in rules && InstanceOver(r, start.graph, d) ==> Reached(q.st, r, d)
    decreases |rules|
  {
    hide EvaluatedIndexed, EmitAll, Sound, Reached, Instances;
    if rules == [] {
      GrowsItself(p.st);
    } else {
      var r, last := rules[0], Round(p, rules, edges);
      assert forall x :: x in rules <==> x == r || x in rules[1..];
      var ds := EvaluatedIndexed(r, edges, IndexOf(edges), p.remaining);
      EvaluatedInstances(r, edges, p.remaining, start.graph);
      var q := EmitAll(p, r.name, ds);
      QuietEmitAll(start, p, r, ds);
      QuietRoundReaches(start, q, rules[1..], edges);
      GrowsTransitive(p.st, q.st, last.st);
      forall d | InstanceOver(r, start.graph, d) ensures Reached(last.st, r, d) {
        FoundIfNotCutOff(r, start.graph, edges, p.remaining, d);
        ReachedStays(q.st, last.st, r, d);
      }
    }
  }

  /** A limit that is not below the number of instances cuts none off. */
  lemma FoundIfNotCutOff(r: Rule, graph: set<Atom>, edges: seq<Atom>, max: int, d: Derivation)
    requires (forall a :: a in edges <==> a in graph) && AllClean(edges)
    requires max > 0 && |Instances(r, graph)| <= max && InstanceOver(r, graph, d)
    ensures d in EvaluatedIndexed(r, edges, IndexOf(edges), max)
  {
    hide EvaluatedPlain, EvaluatedIndexed, Instance;
    var ds := EvaluatedPlain(r, edges, max);
    FastRefinesPlain(r, edges, max);
    EvaluatedSound(r, edges, max);
    FireIsInstance(r, d.premises, d.head);
    forall e | e in ds ensures Fire(r, e.premises) == Some(e.head) && e.premises in Instances(r, graph) {
      FireIsInstance(r, e.premises, e.head);
      assert Within(e.premises, graph);
    }
    if |ds| < max {
      EvaluatedComplete(r, edges, max, d);
    } else {
      AllPremisesFound(ds, Instances(r, graph));
      var e :| e in ds && e.premises == d.premises;
    }
  }

  lemma AllPremisesFound(ds: seq<Derivation>, all: set<seq<Atom>>)
    requires forall i, j :: 0 <= i < j < |ds| ==> ds[i] != ds[j]
    requires forall d, e :: d in ds && e in ds && d.premises == e.premises ==> d == e
    requires (forall d :: d in ds ==> d.premises in all) && |all| <= |ds|
    ensures forall es :: es in all ==> exists d :: d in ds && d.premises == es
  {
    var found := set d | d in ds :: d.premises;
    assert forall i, j :: 0 <= i < j < |ds| ==> ds[i] in ds && ds[j] in ds && ds[i].premises != ds[j].premises;
    DistinctPremises(ds);
    if es :| es in all && es !in found {
      SubsetSize(found, all - {es});
      assert false;
    }
  }

  /** Some rule has more instances over the graph than the limit lets through. */
  ghost predicate SomeEvaluationCutOff(st: State, max: int)
  {
    exists r :: r in st.rules && |Instances(r, st.graph)| > max
  }

  /** An evaluation that returns fewer results than the limit was not cut off. */
  lemma NotFullNotCutOff(st: State, max: int)
    requires Sound(st) && SomeEvaluationCutOff(st, max) && max > 0
    ensures exists r :: r in st.rules && |EvaluatedPlain(r, EdgesOf(st), max)| == max
  {
    hide EvaluatedPlain, EdgesOf, Instance, ProofsJustified, BeliefsJustified, WellFounded;
    var r :| r in st.rules && |Instances(r, st.graph)| > max;
    var edges := EdgesOf(st);
    EdgesAreGraph(st);
    var ds := EvaluatedPlain(r, edges, max);
    EvaluatedSound(r, edges, max);
    if |ds| < max {
      forall es | es in Instances(r, st.graph) ensures es in (set d | d in ds :: d.premises) {
        var d := Derivation(Fire(r, es).value, es);
        FireIsInstance(r, es, d.head);
        EvaluatedComplete(r, edges, max, d);
        assert d.premises == es;
      }
      PremisesCounted(ds);
      SubsetSize(Instances(r, st.graph), set d | d in ds :: d.premises);
      assert false;
    }
  }

  lemma {:induction false} PremisesCounted(ds: seq<Derivation>)
    ensures |set d | d in ds :: d.premises| <= |ds|
    decreases |ds|
  {
    if ds != [] {
      PremisesCounted(ds[1..]);
      assert (set d | d in ds :: d.premises) == (set d | d in ds[1..] :: d.premises) + {ds[0].premises} by {
        assert ds == [ds[0]] + ds[1..];
      }
    } else {
      assert (set d | d in ds :: d.premises) == {};
    }
  }

  /** A round that adds nothing ends saturation saturated, unless one of its
      evaluations is cut off; no bound on the program is asked. */
  lemma QuietIsSaturatedUnlessCutOff(st: State, m: int)
    requires Sound(st) && m > 0 && FullRound(st, m).added == 0 && !SomeEvaluationCutOff(st, m)
    ensures Saturated(ApplyRules(st, m))
  {
    hide EvaluatedPlain, Instances, Reached, Round, EdgesOf, Saturated, ProofsJustified, BeliefsJustified, WellFounded;
    var q := FullRound(st, m);
    EdgesAreGraph(st);
    GrowsItself(st);
    QuietRoundReaches(st, Progress(st, m, 0), st.rules, EdgesOf(st));
    RoundQuiet(Progress(st, m, 0), st.rules, EdgesOf(st));
    QuietRound(st, q.st);
  }

  /** The state and the remaining limit with which the last round starts. */
  ghost function LastRound(st: State, cap: int): (State, int)
    decreases cap
  {
    if cap <= 0 then (st, cap) else
      var q := FullRound(st, cap);
      if q.remaining <= 0 || q.added == 0 then (st, cap) else LastRound(q.st, q.remaining)
  }

  /** Saturation from any sound state, with any limit: if the end is not
      saturated, the limit ran out or an evaluation of the last round was cut off. */
  lemma {:induction false} UnsaturatedEnd(st: State, cap: int)
    requires Sound(st) && cap > 0
    ensures var (s, m) := LastRound(st, cap);
            && Sound(s) && 0 < m <= cap && ApplyRules(st, cap) == FullRound(s, m).st
            && (Saturated(ApplyRules(st, cap)) || FullRound(s, m).remaining <= 0 || SomeEvaluationCutOff(s, m))
    decreases cap
  {
    hide Sound, SomeEvaluationCutOff, Saturated;
    var q := FullRound(st, cap);
    if q.remaining > 0 && q.added > 0 {
      FullRoundSound(st, cap);
      UnsaturatedEnd(q.st, q.remaining);
    } else if q.remaining > 0 && !SomeEvaluationCutOff(st, cap) {
      QuietIsSaturatedUnlessCutOff(st, cap);
    }
  }

  // ---------- a run that stops too early, at the engine's own limit

  const P: Str := [112]
  const Q: Str := [113]

  /** "r": if ?x p ?y then ?x q ?y. */
  const COPY: Rule := Rule([114], [Triple(X, P, Y)], Triple(X, Q, Y))

  function NameOf(i: nat): Str { seq(i + 1, _ => 97) }

  function FactOf(i: nat): Atom { Triple(NameOf(i), P, NameOf(i)) }

  function CopyOf(a: Atom): Atom { Triple(a.from, Q, a.to) }

  function FactsUpTo(n: nat): seq<Atom> { seq(n, i requires 0 <= i < n => FactOf(i)) }

  lemma FactsHold(n: nat)
    ensures |FactsUpTo(n)| == n
    ensures forall a :: a in FactsUpTo(n) ==> ValidAtom(a) && CleanAtom(a) && a.pred == P
    ensures forall i, j :: 0 <= i < j < n ==> FactsUpTo(n)[i] != FactsUpTo(n)[j]
  {
    forall i, j | 0 <= i < j < n ensures FactsUpTo(n)[i] != FactsUpTo(n)[j] { NamesDiffer(i, j); }
  }

  lemma CopyFires(e: Atom)
    requires e.pred == P
    ensures Fire(COPY, [e]) == Some(CopyOf(e))
  {
    assert X != Y;
    MatchAllSplit(COPY.premises, [e], map[]);
    assert COPY.premises[1..] == [] && [e][1..] == [];
    assert MatchAtom(COPY.premises[0], e, map[]) == Some(map[X := e.from, Y := e.to]);
  }

  lemma CopyFiresOnly(es: seq<Atom>)
    ensures Fire(COPY, es).Some? ==> |es| == 1 && es[0].pred == P && Fire(COPY, es) == Some(CopyOf(es[0]))
  {
    if Fire(COPY, es).Some? {
      MatchAllSplit(COPY.premises, es, map[]);
      MatchIsLeast(COPY.premises[0], es[0], map[], MatchAtom(COPY.premises[0], es[0], map[]).value);
      assert es == [es[0]];
      CopyFires(es[0]);
    }
  }

  /** The rule sees nothing but the edges of its premise's predicate. */
  lemma {:induction false} CopySees(src: Lookup, tgt: Lookup, cands: seq<Triple>)
    ensures EnumerateFrom(src, COPY, cands, 0, map[]) == EnumerateFrom(tgt, COPY, cands, 0, map[])
    decreases |cands|
  {
    if cands != [] {
      CopySees(src, tgt, cands[1..]);
      match MatchAtom(COPY.premises[0], cands[0], map[]) {
        case None =>
        case Some(b) => assert Enumerate(src, COPY, 1, b) == Leaf(COPY, b) == Enumerate(tgt, COPY, 1, b);
      }
    }
  }

  lemma CopyEvaluates(edges: seq<Triple>, facts: seq<Triple>, max: int)
    requires multiset(WithPredicate(edges, P)) == multiset(WithPredicate(facts, P))
    ensures EvaluatedPlain(COPY, edges, max) == EvaluatedPlain(COPY, facts, max)
  {
    var a, b := WithPredicate(edges, P), WithPredicate(facts, P);
    FastRefinesPlain(COPY, edges, max);
    FastRefinesPlain(COPY, facts, max);
    assert Bucket(IndexOf(edges), P) == Bucket(IndexOf(facts), P) by { SameBuckets(edges, facts); }
    CopySees(Indexed(Sort(edges, AtomOrder), IndexOf(edges)), Indexed(Sort(facts, AtomOrder), IndexOf(facts)), Bucket(IndexOf(edges), P));
  }

  lemma SameBuckets(edges: seq<Triple>, facts: seq<Triple>)
    requires multiset(WithPredicate(edges, P)) == multiset(WithPredicate(facts, P))
    ensures Bucket(IndexOf(edges), P) == Bucket(IndexOf(facts), P)
  {
    var a, b := Bucket(IndexOf(edges), P), Bucket(IndexOf(facts), P);
    BucketIsFiltered(edges, P);
    BucketIsFiltered(facts, P);
    SortSorts(edges, AtomOrder);
    SortSorts(facts, AtomOrder);
    FilterSorted(Sort(edges, AtomOrder), P);
    FilterSorted(Sort(facts, AtomOrder), P);
    forall e ensures multiset(a)[e] == multiset(b)[e] {
      FilterCounts(edges, P, e);
      FilterCounts(facts, P, e);
      FilterCounts(Sort(edges, AtomOrder), P, e);
      FilterCounts(Sort(facts, AtomOrder), P, e);
    }
    assert multiset(a) == multiset(b);
    forall x, y | x in a && y in a && BucketOrder(x) == BucketOrder(y) ensures x == y {
      assert BucketOrder(x)[0] == BucketOrder(y)[0] && BucketOrder(x)[1] == BucketOrder(y)[1];
    }
    SortUnique(a, b, BucketOrder);
  }

  function Told(a: Atom): Belief { Belief(a, POSITIVE, [115], 0) }

  ghost function FactSet(n: nat): set<Atom> { set i: nat | i < n :: FactOf(i) }

  lemma FactsAre(n: nat, a: Atom)
    ensures a in FactsUpTo(n) <==> a in FactSet(n)
    ensures a in FactSet(n) ==> a.pred == P && CopyOf(a).pred == Q
  {
    if a in FactsUpTo(n) {
      var i :| 0 <= i < n && FactsUpTo(n)[i] == a;
      assert a == FactOf(i);
    }
    if a in FactSet(n) {
      var i: nat :| i < n && a == FactOf(i);
      assert FactsUpTo(n)[i] == a;
    }
  }

  /** What the evaluation finds of `n + 1` facts within the limit `n`. */
  ghost function FirstFound(n: nat): seq<Derivation> { EvaluatedPlain(COPY, FactsUpTo(n + 1), n) }

  lemma FoundAreCopies(n: nat, d: Derivation)
    requires d in FirstFound(n)
    ensures ValidAtom(d.head)
  {
    EvaluatedSound(COPY, FactsUpTo(n + 1), n);
    FireIsInstance(COPY, d.premises, d.head);
    CopyFiresOnly(d.premises);
    assert d.premises[0] in d.premises && d.premises[0] in FactsUpTo(n + 1);
    FactsHold(n + 1);
  }

  /** The engine knows `n + 1` facts and the copies found within the limit, hears
      nothing else of the two predicates, and misses one copy. */
  ghost predicate Stuck(st: State, n: nat, i: nat)
  {
    && i <= n && st.rules == [COPY] && (forall a :: a in st.resolutions ==> a.pred != P && a.pred != Q)
    && (forall k: nat :: k <= n ==> Told(FactOf(k)) in st.beliefs)
    && (forall b :: b in st.beliefs && !IsDerived(b) ==> b.atom.pred != Q && (b.atom.pred == P ==> b.atom in FactSet(n + 1)))
    && (forall d :: d in FirstFound(n) ==> DerivedBelief(d.head, COPY.name) in st.beliefs)
    && DerivedBelief(CopyOf(FactOf(i)), COPY.name) !in st.beliefs
  }

  /** Every derived belief is a copy. */
  lemma DerivedAreCopies(st: State, b: Belief)
    requires Sound(st) && st.rules == [COPY] && b in st.beliefs && IsDerived(b)
    ensures b == DerivedBelief(b.atom, COPY.name) && b.atom.pred == Q
  {
    hide Fire, ProofsJustified, WellFounded, GraphAgrees;
    var r, es :| r in st.rules && Within(es, st.graph) && Fire(r, es) == Some(b.atom) && b == DerivedBelief(b.atom, r.name);
    CopyFiresOnly(es);
  }

  lemma StuckEdges(st: State, n: nat, i: nat, a: Atom)
    requires Sound(st) && Stuck(st, n, i) && a.pred == P
    ensures a in st.graph <==> a in FactSet(n + 1)
  {
    hide FirstFound, ProofsJustified, BeliefsJustified, WellFounded;
    if a in st.graph {
      var b :| b in st.beliefs && b.atom == a && b.polarity == POSITIVE;
      if IsDerived(b) { DerivedAreCopies(st, b); }
    }
    if a in FactSet(n + 1) {
      var k: nat :| k < n + 1 && a == FactOf(k);
      assert Told(FactOf(k)) in st.beliefs;
    }
  }

  lemma EdgesOnce(st: State, e: Atom)
    ensures multiset(EdgesOf(st))[e] == if e in st.graph then 1 else 0
  {
    var edges := EdgesOf(st);
    AtomOrderInjective(Listing(st.graph));
    SortedListingIs(st.graph, Listing(st.graph), AtomOrder);
    AscendingIsSorted(edges, AtomOrder);
    hide SortedListing;
    if e in edges { CountOne(edges, e); }
    assert e in multiset(edges) <==> e in edges;
  }

  lemma FactsOnce(n: nat, e: Atom)
    ensures multiset(FactsUpTo(n))[e] == if e in FactSet(n) then 1 else 0
  {
    FactsHold(n);
    FactsAre(n, e);
    hide FactsUpTo;
    if e in FactsUpTo(n) { CountOne(FactsUpTo(n), e); }
    assert e in multiset(FactsUpTo(n)) <==> e in FactsUpTo(n);
  }

  /** With the same facts in the graph the rule evaluates alike. */
  lemma FactsEvaluate(st: State, n: nat)
    requires forall a: Atom :: a.pred == P ==> (a in st.graph <==> a in FactSet(n + 1))
    ensures EvaluatedPlain(COPY, EdgesOf(st), n) == FirstFound(n)
  {
    hide EvaluatedPlain, FactsUpTo, FactSet, EdgesOf, WithPredicate;
    var edges, facts := EdgesOf(st), FactsUpTo(n + 1);
    forall e ensures multiset(WithPredicate(edges, P))[e] == multiset(WithPredicate(facts, P))[e] {
      FilterCounts(edges, P, e);
      FilterCounts(facts, P, e);
      EdgesOnce(st, e);
      FactsOnce(n + 1, e);
    }
    assert multiset(WithPredicate(edges, P)) == multiset(WithPredicate(facts, P));
    CopyEvaluates(edges, facts, n);
  }

  lemma StuckEvaluates(st: State, n: nat, i: nat)
    requires Sound(st) && Stuck(st, n, i)
    ensures EvaluatedPlain(COPY, EdgesOf(st), n) == FirstFound(n)
  {
    hide EvaluatedPlain, FactSet, EdgesOf, FirstFound, Sound, Stuck;
    forall a: Atom | a.pred == P ensures a in st.graph <==> a in FactSet(n + 1) { StuckEdges(st, n, i, a); }
    FactsEvaluate(st, n);
  }

  /** Saturating a stuck state changes no belief. */
  lemma StuckStays(st: State, n: nat, i: nat)
    requires n > 0 && Sound(st) && Stuck(st, n, i)
    ensures ApplyRules(st, n).beliefs == st.beliefs && Stuck(ApplyRules(st, n), n, i)
  {
    hide EvaluatedPlain, FullRound, ApplyRules, Sound, FactSet, FirstFound;
    StuckEvaluates(st, n, i);
    assert forall d :: d in EvaluatedPlain(COPY, EdgesOf(st), n) ==> !Writes(st, COPY.name, d);
    StopsAtOnce(st, n);
    ApplyRulesSound(st, n);
  }

  /** And an atom it should prove stays unknown to it. */
  lemma StuckMisses(st: State, n: nat, i: nat)
    requires Sound(st) && Stuck(st, n, i)
    ensures Provable(ProgramOf(st), CopyOf(FactOf(i)))
    ensures CopyOf(FactOf(i)) !in st.graph && Evaluate(st, CopyOf(FactOf(i))) == (Unknown, NoEvidence)
  {
    hide FirstFound, Lfp, ProofsJustified, BeliefsJustified, WellFounded, Fire;
    var p, e := ProgramOf(st), FactOf(i);
    forall b | b in st.beliefs ensures b.atom != CopyOf(e) {
      if IsDerived(b) { DerivedAreCopies(st, b); }
    }
    LfpClosed(p);
    assert Told(e) in st.beliefs && !IsDerived(Told(e)) by { assert Told(e).source[0] != RULE_PREFIX[0]; }
    assert Told(e) in BaseBeliefs(st.beliefs);
    assert e in p.facts && Admissible(p, e);
    CopyFires(e);
    assert COPY in p.rules;
    LfpStep(p, COPY, [e]);
  }

  // ---------- how a run gets stuck

  function Ingests(k: nat): seq<Op> { seq(k, i requires 0 <= i < k => OpIngest(Told(FactOf(i)))) }

  /** The engine after `k` of the facts. */
  ghost function FactState(k: nat): State
  {
    State((set i: nat | i < k :: Told(FactOf(i))), map[], [], FactSet(k), map[], None)
  }

  lemma ToldIsFine(i: nat)
    ensures ValidBelief(Told(FactOf(i))) && CleanAtom(FactOf(i)) && !IsDerived(Told(FactOf(i)))
  {
    assert Told(FactOf(i)).source[0] != RULE_PREFIX[0];
  }

  lemma {:induction false} FactsIngested(k: nat)
    ensures Run(NewEngine(None), Ingests(k)) == Some(FactState(k)) && CleanOps(Ingests(k))
    decreases k
  {
    hide Run, ApplyRules, ValidBelief, CleanAtom;
    forall op | op in Ingests(k) ensures CleanOp(op) {
      var i :| 0 <= i < k && op == OpIngest(Told(FactOf(i)));
      ToldIsFine(i);
    }
    if k == 0 {
      RunNone(NewEngine(None));
      assert FactState(0) == NewEngine(None);
    } else {
      var op, st := OpIngest(Told(FactOf(k - 1))), FactState(k - 1);
      FactsIngested(k - 1);
      assert Ingests(k) == Ingests(k - 1) + [op];
      RunConcat(NewEngine(None), Ingests(k - 1), [op]);
      RunOne(st, op);
      ToldIsFine(k - 1);
      NoRulesNoChange(IngestNoLog(st, Told(FactOf(k - 1))), CAP);
      assert IngestNoLog(st, Told(FactOf(k - 1))) == FactState(k);
    }
  }

  /** A saturation adds no more beliefs than its limit. */
  lemma {:induction false} EmitAllCounts(p: Progress, rule: Str, ds: seq<Derivation>)
    requires p.remaining > 0
    ensures var q := EmitAll(p, rule, ds);
            q.remaining >= 0 && |q.st.beliefs| <= |p.st.beliefs| + (q.added - p.added) && p.st.beliefs <= q.st.beliefs
    decreases |ds|
  {
    if ds != [] {
      var q := Turn(p, rule, ds[0]);
      TurnCounts(p, rule, ds[0]);
      hide Turn;
      if q.remaining > 0 { EmitAllCounts(q, rule, ds[1..]); }
    }
  }

  lemma TurnCounts(p: Progress, rule: Str, d: Derivation)
    ensures var q := Turn(p, rule, d);
            && |q.st.beliefs| <= |p.st.beliefs| + (q.added - p.added) && p.st.beliefs <= q.st.beliefs
            && p.remaining - 1 <= q.remaining && (ValidAtom(d.head) ==> DerivedBelief(d.head, rule) in q.st.beliefs)
  {
    CountGrowsWhenWritten(p.st, rule, d);
    assert RULE_PREFIX + rule != [];
    assert |p.st.beliefs + {DerivedBelief(d.head, rule)}| <= |p.st.beliefs| + 1;
  }

  lemma {:induction false} RoundCounts(p: Progress, rules: seq<Rule>, edges: seq<Atom>)
    requires p.remaining > 0
    ensures var q := Round(p, rules, edges);
            q.remaining >= 0 && |q.st.beliefs| <= |p.st.beliefs| + (q.added - p.added)
    decreases |rules|
  {
    hide EmitAll, EvaluatedIndexed;
    if rules != [] {
      var ds := EvaluatedIndexed(rules[0], edges, IndexOf(edges), p.remaining);
      EmitAllCounts(p, rules[0].name, ds);
      var q := EmitAll(p, rules[0].name, ds);
      if q.remaining > 0 { RoundCounts(q, rules[1..], edges); }
    }
  }

  lemma {:induction false} AtMostTheLimit(st: State, cap: int)
    requires cap > 0
    ensures |ApplyRules(st, cap).beliefs| <= |st.beliefs| + cap
    decreases cap
  {
    hide Round;
    RoundCounts(Progress(st, cap, 0), st.rules, EdgesOf(st));
    var q := FullRound(st, cap);
    if q.remaining > 0 && q.added > 0 { AtMostTheLimit(q.st, q.remaining); }
  }

  /** Derivations no more than the limit are all believed. */
  lemma {:induction false} EmitAllBelieves(p: Progress, rule: Str, ds: seq<Derivation>)
    requires 0 < p.remaining && |ds| <= p.remaining
    ensures var q := EmitAll(p, rule, ds);
            forall d :: d in ds && ValidAtom(d.head) ==> DerivedBelief(d.head, rule) in q.st.beliefs
    decreases |ds|
  {
    if ds != [] {
      var q, last := Turn(p, rule, ds[0]), EmitAll(p, rule, ds);
      TurnCounts(p, rule, ds[0]);
      hide Turn;
      assert forall d :: d in ds <==> d == ds[0] || d in ds[1..];
      if q.remaining > 0 {
        EmitAllBelieves(q, rule, ds[1..]);
        EmitAllCounts(q, rule, ds[1..]);
      } else {
        assert ds[1..] == [];
      }
    }
  }

  /** The first round over the facts believes all it finds. */
  lemma FirstRound(st: State, n: nat)
    requires n > 0 && st.rules == [COPY] && EvaluatedPlain(COPY, EdgesOf(st), n) == FirstFound(n)
    ensures forall d :: d in FirstFound(n) ==> DerivedBelief(d.head, COPY.name) in FullRound(st, n).st.beliefs
  {
    hide EvaluatedPlain, EvaluatedIndexed, EmitAll;
    var p, edges := Progress(st, n, 0), EdgesOf(st);
    FastRefinesPlain(COPY, edges, n);
    EvaluatedSound(COPY, edges, n);
    var ds := FirstFound(n);
    EmitAllBelieves(p, COPY.name, ds);
    assert [COPY][0] == COPY && [COPY][1..] == [];
    assert Round(p, [COPY], edges) == EmitAll(p, COPY.name, ds);
    forall d | d in ds ensures ValidAtom(d.head) { FoundAreCopies(n, d); }
  }

  /** The facts with the rule added, before saturation. */
  ghost function RuleState(n: nat): State { FactState(n + 1).(rules := [COPY]) }

  lemma RuleStateIsSound(n: nat)
    ensures Invariant(RuleState(n)) && Before(FactState(n + 1), OpAddRule(COPY)) == Some(RuleState(n))
    ensures CleanOp(OpAddRule(COPY))
  {
    hide Run, Invariant, FactSet, FirstFound;
    FactsIngested(n + 1);
    ReachableInvariant(None, Ingests(n + 1));
    assert [] + [COPY] == [COPY];
    BeforeInvariant(FactState(n + 1), OpAddRule(COPY));
  }

  ghost function ToldSet(n: nat): set<Belief> { set i: nat | i < n :: Told(FactOf(i)) }

  ghost function CopySet(n: nat): set<Belief> { set i: nat | i < n :: DerivedBelief(CopyOf(FactOf(i)), COPY.name) }

  lemma CountedMore(n: nat)
    ensures ToldSet(n + 1) == ToldSet(n) + {Told(FactOf(n))} && Told(FactOf(n)) !in ToldSet(n)
    ensures CopySet(n + 1) == CopySet(n) + {DerivedBelief(CopyOf(FactOf(n)), COPY.name)}
    ensures DerivedBelief(CopyOf(FactOf(n)), COPY.name) !in CopySet(n)
  {
    hide NameOf;
    forall k: nat | k < n ensures FactOf(k).from != FactOf(n).from { NamesDiffer(k, n); }
  }

  lemma NamesDiffer(j: nat, k: nat)
    requires j != k
    ensures NameOf(j) != NameOf(k)
  {
    assert |NameOf(j)| != |NameOf(k)|;
  }

  lemma {:induction false} CountedSets(n: nat)
    ensures |ToldSet(n)| == n && |CopySet(n)| == n
    decreases n
  {
    if n == 0 {
      assert ToldSet(0) == {} && CopySet(0) == {};
    } else {
      hide ToldSet, CopySet;
      CountedSets(n - 1);
      CountedMore(n - 1);
    }
  }

  /** More facts than the limit: not every copy is written. */
  lemma OneIsMissing(beliefs: set<Belief>, n: nat) returns (i: nat)
    requires ToldSet(n + 1) <= beliefs && |beliefs| <= 2 * n + 1
    ensures i <= n && DerivedBelief(CopyOf(FactOf(i)), COPY.name) !in beliefs
  {
    CountedSets(n + 1);
    var told, copies := ToldSet(n + 1), CopySet(n + 1);
    forall b | b in told ensures b !in copies {
      var k: nat :| k < n + 1 && b == Told(FactOf(k));
      assert b.atom.pred == P != Q;
    }
    assert told !! copies;
    assert |told + copies| == |told| + |copies|;
    if copies <= beliefs {
      SubsetSize(told + copies, beliefs);
      assert false;
    }
    i :| i < n + 1 && DerivedBelief(CopyOf(FactOf(i)), COPY.name) !in beliefs;
  }

  /** The rule and `n + 1` facts, nothing derived, no resolution of either predicate. */
  ghost predicate Loaded(st: State, n: nat)
  {
    && Sound(st) && st.rules == [COPY] && st.beliefs == ToldSet(n + 1)
    && forall a :: a in st.resolutions ==> a.pred != P && a.pred != Q
  }

  lemma LoadedGraph(st: State, n: nat)
    requires Loaded(st, n)
    ensures st.graph == FactSet(n + 1)
  {
    hide ProofsJustified, BeliefsJustified, WellFounded, CleanState;
    forall a ensures a in st.graph <==> a in FactSet(n + 1) {
      if a in FactSet(n + 1) {
        var i: nat :| i < n + 1 && a == FactOf(i);
        assert Told(a) in st.beliefs;
      }
    }
  }

  lemma LoadedEvaluates(st: State, n: nat)
    requires Loaded(st, n)
    ensures EvaluatedPlain(COPY, EdgesOf(st), n) == FirstFound(n)
  {
    hide EvaluatedPlain, FactSet, EdgesOf, FirstFound, Loaded;
    LoadedGraph(st, n);
    FactsEvaluate(st, n);
  }

  /** Saturating `n + 1` facts with the limit `n` gets stuck. */
  lemma GetsStuck(s: State, n: nat) returns (i: nat)
    requires n > 0 && Loaded(s, n)
    ensures Stuck(ApplyRules(s, n), n, i)
  {
    hide FirstFound, FullRound, EdgesOf, Sound, Wellformed;
    var t, q := ApplyRules(s, n), FullRound(s, n);
    LoadedEvaluates(s, n);
    FirstRound(s, n);
    FullRoundSound(s, n);
    if q.remaining > 0 { ApplyRulesSound(q.st, q.remaining); }
    ApplyRulesSound(s, n);
    AtMostTheLimit(s, n);
    CountedSets(n + 1);
    i := OneIsMissing(t.beliefs, n);
    forall b | b in t.beliefs && !IsDerived(b) ensures b.atom.pred == P && b.atom in FactSet(n + 1) {
      assert b in BaseBeliefs(t.beliefs);
      var k: nat :| k < n + 1 && b == Told(FactOf(k));
    }
  }

  lemma RuleStateIsLoaded(n: nat)
    ensures Loaded(RuleState(n), n)
  {
    hide Sound, Wellformed;
    RuleStateIsSound(n);
  }

  /** A caller's belief about neither of the rule's predicates. */
  ghost predicate Unrelated(op: Op)
  {
    op.OpIngest? && ValidBelief(op.b) && CleanOp(op) && op.b.atom.pred != P && op.b.atom.pred != Q
  }

  lemma StepStaysStuck(st: State, op: Op, i: nat)
    requires Invariant(st) && st.log == None && Stuck(st, CAP, i) && Unrelated(op)
    ensures Step(st, op).Some? && Stuck(Step(st, op).value, CAP, i) && Step(st, op).value.log == None
  {
    hide FirstFound, FactSet, Sound, Wellformed, ApplyRules;
    StepIs(st, op);
    BeforeInvariant(st, op);
    var x := Before(st, op).value;
    assert Stuck(x, CAP, i);
    StuckStays(x, CAP, i);
    ApplyRulesSound(x, CAP);
  }

  lemma {:induction false} RunStaysStuck(st: State, more: seq<Op>, i: nat)
    requires Invariant(st) && st.log == None && Stuck(st, CAP, i) && forall op :: op in more ==> Unrelated(op)
    ensures Run(st, more).Some? && Stuck(Run(st, more).value, CAP, i)
    decreases |more|
  {
    hide Invariant, Stuck, Step, Unrelated;
    if more != [] {
      assert more[0] in more;
      assert CleanOp(more[0]) by { UnrelatedIsClean(more[0]); }
      StepStaysStuck(st, more[0], i);
      StepKeepsInvariant(st, more[0]);
      assert forall op :: op in more[1..] ==> op in more;
      RunStaysStuck(Step(st, more[0]).value, more[1..], i);
    }
  }

  lemma UnrelatedIsClean(op: Op)
    requires Unrelated(op)
    ensures CleanOp(op)
  {
  }

  /** One fact more than the engine's limit, then the rule. */
  ghost function TooManyFacts(): seq<Op> { Ingests(1001) + [OpAddRule(COPY)] }

  /** The bound cannot be dropped: after 1001 facts and one rule, a provable atom
      is unknown to the engine, and however many more beliefs about other
      predicates it ingests, each saturation stops at once and it stays unknown. */
  lemma RunStopsTooEarly(more: seq<Op>) returns (a: Atom)
    requires forall op :: op in more ==> Unrelated(op)
    ensures CleanOps(TooManyFacts() + more) && Run(NewEngine(None), TooManyFacts() + more).Some?
    ensures var st := Run(NewEngine(None), TooManyFacts() + more).value;
            && Provable(ProgramOf(st), a) && a !in st.graph && Evaluate(st, a) == (Unknown, NoEvidence)
            && ApplyRules(st, CAP).beliefs == st.beliefs
  {
    hide Run, Step, Before, Stuck, ProgramOf, ApplyRules, Provable, Evaluate, RuleState, FactState, CleanOp, Unrelated;
    var start, op := NewEngine(None), OpAddRule(COPY);
    FactsIngested(CAP + 1);
    RuleStateIsSound(CAP);
    StepIs(FactState(CAP + 1), op);
    var t := ApplyRules(RuleState(CAP), CAP);
    RunConcat(start, Ingests(CAP + 1), [op]);
    RunOne(FactState(CAP + 1), op);
    RunConcat(start, TooManyFacts(), more);
    forall o | o in more ensures CleanOp(o) { UnrelatedIsClean(o); }
    NewEngineInvariant(None);
    ReachableInvariant(None, TooManyFacts());
    RuleStateIsLoaded(CAP);
    var i := GetsStuck(RuleState(CAP), CAP);
    StuckHasNoLog(CAP);
    RunStaysStuck(t, more, i);
    ReachableInvariant(None, TooManyFacts() + more);
    var st := Run(start, TooManyFacts() + more).value;
    StuckMisses(st, CAP, i);
    StuckStays(st, CAP, i);
    a := CopyOf(FactOf(i));
  }

  lemma StuckHasNoLog(n: nat)
    ensures ApplyRules(RuleState(n), n).log == None
  {
    hide ApplyRules, Sound, Wellformed;
    RuleStateIsSound(n);
    ApplyRulesSound(RuleState(n), n);
  }

  // ---------- a bulk load has the larger limit, what rebuilds has the smaller

  function Items(k: nat): seq<Item> { seq(k, i requires 0 <= i < k => Item(FactOf(i), POSITIVE)) }

  const SOURCE: Str := [115]

  lemma ItemsToldAre(k: nat)
    ensures ItemsTold(Items(k), SOURCE) == ToldSet(k) && CleanOp(OpBulk(Items(k), SOURCE))
  {
    hide ValidBelief, CleanAtom;
    forall b ensures b in ItemsTold(Items(k), SOURCE) <==> b in ToldSet(k) {
      if b in ItemsTold(Items(k), SOURCE) {
        var item :| item in Items(k) && b == ItemBelief(item, SOURCE);
        var i :| 0 <= i < k && Items(k)[i] == item;
        assert b == Told(FactOf(i));
      }
      if b in ToldSet(k) {
        var i: nat :| i < k && b == Told(FactOf(i));
        ToldIsFine(i);
        assert Items(k)[i] in Items(k) && b == ItemBelief(Items(k)[i], SOURCE);
      }
    }
    forall item | item in Items(k) ensures CleanAtom(item.atom) {
      var i :| 0 <= i < k && Items(k)[i] == item;
      ToldIsFine(i);
    }
    assert SOURCE[0] != RULE_PREFIX[0];
  }

  lemma {:induction false} FewInstances(n: nat)
    ensures |set i: nat | i < n :: [FactOf(i)]| <= n
    decreases n
  {
    var all := set i: nat | i < n :: [FactOf(i)];
    if n == 0 {
      assert all == {};
    } else {
      FewInstances(n - 1);
      assert all == (set i: nat | i < n - 1 :: [FactOf(i)]) + {[FactOf(n - 1)]};
    }
  }

  lemma InstancesAreFew(n: nat)
    ensures |Instances(COPY, FactSet(n))| <= n
  {
    hide Fire;
    FewInstances(n);
    forall es | es in Instances(COPY, FactSet(n)) ensures es in (set i: nat | i < n :: [FactOf(i)]) {
      CopyFiresOnly(es);
      assert es[0] in es;
      var i: nat :| i < n && es[0] == FactOf(i);
      assert es == [FactOf(i)];
    }
    SubsetSize(Instances(COPY, FactSet(n)), set i: nat | i < n :: [FactOf(i)]);
  }

  /** With a limit that is not below the number of facts every copy is believed. */
  lemma AllCopied(s: State, n: nat, max: int, i: nat)
    requires Loaded(s, n) && n + 1 <= max && i <= n
    ensures CopyOf(FactOf(i)) in ApplyRules(s, max).graph
  {
    hide EvaluatedPlain, EvaluatedIndexed, EmitAll, Sound, FullRound, ApplyRules, EdgesOf, Instances, Instance, FactSet;
    var d, p, edges := Derivation(CopyOf(FactOf(i)), [FactOf(i)]), Progress(s, max, 0), EdgesOf(s);
    LoadedGraph(s, n);
    FactIn(i, n + 1);
    CopyFires(FactOf(i));
    InstancesAreFew(n + 1);
    SoundEdges(s);
    FoundIfNotCutOff(COPY, s.graph, edges, max, d);
    FastRefinesPlain(COPY, edges, max);
    EvaluatedSound(COPY, edges, max);
    EmitAllBelieves(p, COPY.name, EvaluatedIndexed(COPY, edges, IndexOf(edges), max));
    OneRuleRound(s, max);
    StaysBelieved(s, max, DerivedBelief(d.head, COPY.name));
    ApplyRulesSound(s, max);
    BelievedCopy(ApplyRules(s, max), FactOf(i));
  }

  lemma StaysBelieved(s: State, max: int, b: Belief)
    requires Sound(s) && max > 0 && b in FullRound(s, max).st.beliefs
    ensures b in ApplyRules(s, max).beliefs
  {
    hide Sound, FullRound;
    var q := FullRound(s, max);
    FullRoundSound(s, max);
    if q.remaining > 0 { ApplyRulesSound(q.st, q.remaining); }
  }

  lemma FactIn(i: nat, n: nat)
    requires i < n
    ensures FactOf(i) in FactSet(n)
  {
  }

  lemma SoundEdges(st: State)
    requires Sound(st)
    ensures (forall a :: a in EdgesOf(st) <==> a in st.graph) && AllClean(EdgesOf(st))
  {
    EdgesAreGraph(st);
  }

  lemma OneRuleRound(s: State, max: int)
    requires s.rules == [COPY]
    ensures FullRound(s, max) == EmitAll(Progress(s, max, 0), COPY.name, EvaluatedIndexed(COPY, EdgesOf(s), IndexOf(EdgesOf(s)), max))
  {
    hide EmitAll, EvaluatedIndexed, EdgesOf;
    assert [COPY][0] == COPY && [COPY][1..] == [];
    var edges := EdgesOf(s);
    var q := EmitAll(Progress(s, max, 0), COPY.name, EvaluatedIndexed(COPY, edges, IndexOf(edges), max));
    assert Round(q, [], edges) == q;
    assert Round(Progress(s, max, 0), [COPY], edges) == q;
  }

  lemma BelievedCopy(t: State, f: Atom)
    requires Sound(t) && DerivedBelief(CopyOf(f), COPY.name) in t.beliefs
    requires forall a :: a in t.resolutions ==> a.pred != Q
    ensures CopyOf(f) in t.graph
  {
    hide ProofsJustified, BeliefsJustified, WellFounded, CleanState;
  }

  /** Rebuilding such an engine has the limit 1000: it forgets a copy. */
  lemma RecomputeForgets(x: State) returns (i: nat)
    requires Wellformed(x) && x.rules == [COPY] && BaseBeliefs(x.beliefs) == ToldSet(1001)
    requires forall a :: a in x.resolutions ==> a.pred != P && a.pred != Q
    ensures Sound(Recompute(x)) && Stuck(Recompute(x), CAP, i)
  {
    hide Sound, KeyedResolutions, CleanLog, ApplyRules, ToldSet, Stuck, Loaded;
    StrippedSound(x);
    assert Loaded(Stripped(x), CAP) by { StrippedIsLoaded(x, CAP); }
    i := GetsStuck(Stripped(x), CAP);
    ApplyRulesSound(Stripped(x), CAP);
  }

  lemma StrippedIsLoaded(x: State, n: nat)
    requires Sound(Stripped(x)) && x.rules == [COPY] && BaseBeliefs(x.beliefs) == ToldSet(n + 1)
    requires forall a :: a in x.resolutions ==> a.pred != P && a.pred != Q
    ensures Loaded(Stripped(x), n)
  {
    hide Sound;
  }

  /** One rule, then a bulk load of `k` facts. */
  ghost function BulkRun(k: nat): seq<Op> { [OpAddRule(COPY), OpBulk(Items(k), SOURCE)] }

  lemma CopyIsWritable()
    ensures RuleFits(COPY) && |RuleBytes(COPY)| <= 0xffff_ffff && CleanRule(COPY)
  {
    assert COPY.premises[1..] == [];
    assert PatternsBytes(COPY.premises) == PatternBytes(COPY.premises[0]) + PatternsBytes([]);
  }

  lemma RuleAdded() returns (s: State)
    ensures Step(NewEngine(Some([])), OpAddRule(COPY)) == Some(s) && CleanOp(OpAddRule(COPY))
    ensures Invariant(s) && s.rules == [COPY] && s.resolutions == map[] && s.beliefs == {}
  {
    hide ApplyRules, RuleBytes, RuleFits, Sound, Wellformed, CleanRule;
    var start, op := NewEngine(Some([])), OpAddRule(COPY);
    CopyIsWritable();
    NewEngineInvariant(Some([]));
    StepIs(start, op);
    assert [] + [COPY] == [COPY];
    var x := Before(start, op).value;
    BeforeInvariant(start, op);
    ApplyRulesSound(x, CAP);
    StepKeepsInvariant(start, op);
    s := Step(start, op).value;
    assert BaseBeliefs(s.beliefs) == {};
    NothingFromNothing(s);
  }

  /** The state on which such a run saturates for the last time. */
  lemma BulkLoads(n: nat) returns (x: State)
    ensures CleanOps(BulkRun(n + 1)) && Run(NewEngine(Some([])), BulkRun(n + 1)) == Some(ApplyRules(x, 10000))
    ensures Loaded(x, n) && x.resolutions == map[] && Invariant(ApplyRules(x, 10000))
  {
    hide ApplyRules, Sound, Wellformed, Run, ToldSet, Items, CleanOp;
    var start, one, two := NewEngine(Some([])), OpAddRule(COPY), OpBulk(Items(n + 1), SOURCE);
    var s := RuleAdded();
    ItemsToldAre(n + 1);
    assert BulkRun(n + 1) == [one] + [two];
    RunConcat(start, [one], [two]);
    RunOne(start, one);
    RunOne(s, two);
    LoadTells(s, Items(n + 1), SOURCE);
    StepIs(s, two);
    BeforeInvariant(s, two);
    StepKeepsInvariant(s, two);
    x := Before(s, two).value;
    assert {} + ToldSet(n + 1) == ToldSet(n + 1);
  }

  lemma BulkLoaded() returns (st: State)
    ensures CleanOps(BulkRun(1001)) && Run(NewEngine(Some([])), BulkRun(1001)) == Some(st)
    ensures Invariant(st) && st.rules == [COPY] && st.resolutions == map[] && BaseBeliefs(st.beliefs) == ToldSet(1001)
    ensures forall i: nat :: i <= 1000 ==> CopyOf(FactOf(i)) in st.graph
  {
    hide ApplyRules, Sound, Wellformed, Run, ToldSet, CleanOps, BulkRun;
    var x := BulkLoads(1000);
    ApplyRulesSound(x, 10000);
    st := ApplyRules(x, 10000);
    ToldIsBase(1001);
    forall i: nat | i <= 1000 ensures CopyOf(FactOf(i)) in st.graph { AllCopied(x, 1000, 10000, i); }
  }

  /** The larger limit is a limit too: a bulk load of 10001 facts leaves a provable
      atom unknown. */
  lemma BulkStopsTooEarly() returns (st: State, a: Atom)
    ensures CleanOps(BulkRun(10001)) && Run(NewEngine(Some([])), BulkRun(10001)) == Some(st)
    ensures Provable(ProgramOf(st), a) && a !in st.graph && Evaluate(st, a) == (Unknown, NoEvidence)
  {
    hide ApplyRules, Sound, Wellformed, Run, ToldSet, CleanOps, BulkRun, Stuck, Loaded, ProgramOf, Provable, Evaluate;
    var x := BulkLoads(10000);
    st := ApplyRules(x, 10000);
    var i := GetsStuck(x, 10000);
    StuckMisses(st, 10000, i);
    a := CopyOf(FactOf(i));
  }

  lemma ToldIsBase(k: nat)
    ensures BaseBeliefs(ToldSet(k)) == ToldSet(k)
  {
    forall i: nat ensures !IsDerived(Told(FactOf(i))) { ToldIsFine(i); }
  }

  /** Known before, provable, and unknown after. */
  ghost predicate Forgotten(before: State, after: State, a: Atom)
  {
    a in before.graph && Provable(ProgramOf(after), a) && a !in after.graph && Evaluate(after, a) == (Unknown, NoEvidence)
  }

  lemma StuckForgets(before: State, after: State, i: nat)
    requires Sound(after) && Stuck(after, CAP, i) && forall k: nat :: k <= CAP ==> CopyOf(FactOf(k)) in before.graph
    ensures Forgotten(before, after, CopyOf(FactOf(i)))
  {
    StuckMisses(after, CAP, i);
  }

  /** A bulk load of 1001 facts derives all their copies; replaying its log, or
      resolving any atom of another predicate, leaves one of them unknown. */
  lemma RebuildingForgets(r: Resolution) returns (st: State)
    requires ValidResolution(r) && CleanAtom(r.atom) && EncodeResolution(r).Some? && r.atom.pred != P && r.atom.pred != Q
    ensures CleanOps(BulkRun(1001)) && Run(NewEngine(Some([])), BulkRun(1001)) == Some(st)
    ensures ReplayFromLog(st).Some? && exists a :: Forgotten(st, ReplayFromLog(st).value, a)
    ensures Resolve(st, r).Some? && exists a :: Forgotten(st, Resolve(st, r).value, a)
  {
    hide Invariant, Sound, Stuck, Recompute, Forgotten, ToldSet, Run, BulkRun, Faithful;
    st := BulkLoaded();
    var read := BulkReads(st);
    var i := RecomputeForgets(read);
    StuckForgets(st, Recompute(read), i);
    ResolveRecomputes(st, r);
    var j := RecomputeForgets(Resolving(st, r));
    StuckForgets(st, Recompute(Resolving(st, r)), j);
  }

  lemma BulkReads(st: State) returns (read: State)
    requires CleanOps(BulkRun(1001)) && Run(NewEngine(Some([])), BulkRun(1001)) == Some(st)
    requires Invariant(st) && st.rules == [COPY] && st.resolutions == map[] && BaseBeliefs(st.beliefs) == ToldSet(1001)
    ensures ReplayFromLog(st) == Some(Recompute(read)) && Wellformed(read)
    ensures read.rules == [COPY] && read.resolutions == map[] && BaseBeliefs(read.beliefs) == ToldSet(1001)
  {
    hide Run, BulkRun, Recompute, Sound, EncodeBelief;
    NewEngineInvariant(Some([]));
    NewLogFaithful();
    RunFaithful(NewEngine(Some([])), BulkRun(1001));
    read := ReadLog(st.log.value).value;
    NewEngineInvariant(st.log);
    ReplayWellformed(NewEngine(st.log), st.log.value);
    forall b | b in ToldSet(1001) ensures EncodeBelief(b).Some? {
      var k: nat :| k < CAP + 1 && b == Told(FactOf(k));
      ShortFactFits(k);
    }
    assert Logged(st.beliefs) == ToldSet(1001);
  }

  lemma ShortFactFits(k: nat)
    requires k <= CAP
    ensures EncodeBelief(Told(FactOf(k))).Some?
  {
  }

  lemma ResolveRecomputes(st: State, r: Resolution)
    requires Invariant(st) && st.log.Some? && ValidResolution(r) && CleanAtom(r.atom) && EncodeResolution(r).Some?
    ensures Resolve(st, r) == Some(Recompute(Resolving(st, r))) && Wellformed(Resolving(st, r))
  {
    hide Recompute, EncodeBelief;
    FactFits(AsBelief(r));
    ResolvingWellformed(st, r);
  }
}
