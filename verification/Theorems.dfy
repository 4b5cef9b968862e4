/** What the engine is for: it never invents a fact, retracts exactly, and does
    not depend on the order in which it was told things. */
module Theorems {
  import opened Order
  import opened Facts
  import opened Rules
  import opened Datalog
  import opened Wal
  import opened Codec
  import opened Machine
  import opened Soundness
  import opened Exactness
  import opened Lifecycle

  // ---------- answers

  /** The engine calls an atom asserted: `TruthTrue`, or `TruthBoth` with the opposite. */
  ghost predicate Affirms(st: State, a: Atom) { Evaluate(st, a).0 == True || Evaluate(st, a).0 == Both }

  /** Caps or not: an atom nobody resolved is affirmed only if it has a proof
      tree, and one that is not a base fact is affirmed with recorded proofs,
      each an instance of a current rule over the graph. */
  lemma NothingIsInvented(st: State, a: Atom)
    requires Sound(st) && a !in st.resolutions && Affirms(st, a)
    ensures Provable(ProgramOf(st), a)
    ensures BaseFact(st, a) || ProofsOf(st.derivations, a) != []
    ensures forall d :: d in ProofsOf(st.derivations, a) ==> Justified(st.rules, st.graph, a, d)
  {
    assert a in st.graph;
    GraphIsProvable(st);
    var rank: map<Atom, nat>, top: nat :| Ranked(st, rank, top);
    if !BaseFact(st, a) {
      var d :| Recorded(st.derivations, a, d);
    }
    forall d | d in ProofsOf(st.derivations, a) ensures Justified(st.rules, st.graph, a, d) {
      assert Recorded(st.derivations, a, d);
    }
  }

  /** Under the bound, what is affirmed is what a resolution affirms or, where
      there is none, exactly what is provable. */
  lemma AffirmsExactlyTheProvable(st: State, a: Atom)
    requires Sound(st) && Saturated(st)
    ensures Affirms(st, a) <==>
            if a in st.resolutions then st.resolutions[a].polarity == POSITIVE else Provable(ProgramOf(st), a)
  {
    if a !in st.resolutions {
      assert a in st.graph <==> a in Lfp(ProgramOf(st));
    }
  }

  /** A caller's belief that denies the atom. */
  ghost predicate Negated(beliefs: set<Belief>, a: Atom)
  {
    exists b :: b in beliefs && b.atom == a && b.polarity == 0
  }

  /** A rule of the program, of this name, concludes the atom from these provable premises. */
  ghost predicate Concludes(p: Program, a: Atom, d: DerivationProof)
  {
    Within(d.premises, Lfp(p)) && exists r :: r in p.rules && r.name == d.rule && Fire(r, d.premises) == Some(a)
  }

  /** The answer that the program, the resolutions and the callers' beliefs call for. */
  ghost predicate RightAnswer(p: Program, resolutions: map<Atom, Resolution>, beliefs: set<Belief>, a: Atom,
        truth: Truth, proof: Proof)
  {
    if a in resolutions then
      truth == (if resolutions[a].polarity == 1 then True else False) && proof == ByResolution(resolutions[a].source)
    else
      && (truth == Both <==> Provable(p, a) && Negated(beliefs, a))
      && (truth == True <==> Provable(p, a) && !Negated(beliefs, a))
      && (truth == False <==> !Provable(p, a) && Negated(beliefs, a))
      && (truth == Unknown <==> !Provable(p, a) && !Negated(beliefs, a))
      && (proof == Contradiction <==> truth == Both)
      && (proof == NoEvidence <==> truth == Unknown)
      && (proof == ByBelief <==> truth == False || (truth == True && forall d :: !Concludes(p, a, d)))
      && (proof.Derived? <==> truth == True && exists d :: Concludes(p, a, d))
      && (proof.Derived? ==> forall d :: d in proof.proofs <==> Concludes(p, a, d))
      && (proof.Derived? ==> forall i, j :: 0 <= i < j < |proof.proofs| ==> ProofBefore(proof.proofs[i], proof.proofs[j]))
  }

  lemma OnlyCallersNegate(st: State, a: Atom)
    requires Sound(st)
    ensures Believed(st.beliefs, a, NEGATIVE) <==> Negated(BaseBeliefs(st.beliefs), a)
  {
  }

  lemma RecordedAreConcluded(st: State, a: Atom)
    requires Saturated(st)
    ensures forall d :: d in ProofsOf(st.derivations, a) <==> Concludes(ProgramOf(st), a, d)
  {
    hide Lfp, Fire;
    forall d ensures d in ProofsOf(st.derivations, a) <==> Concludes(ProgramOf(st), a, d) {
      assert d in ProofsOf(st.derivations, a) <==> Recorded(st.derivations, a, d);
      assert Recorded(st.derivations, a, d) <==> Justified(st.rules, st.graph, a, d);
      assert forall r :: r in ProgramOf(st).rules <==> r in st.rules;
    }
  }

  lemma ProofsInOrder(list: seq<DerivationProof>)
    requires Ascending(list, ProofOrder)
    ensures forall i, j :: 0 <= i < j < |list| ==> ProofBefore(list[i], list[j])
  {
    hide ProofOrder, ProofBefore, KeyLess;
    forall i, j | 0 <= i < j < |list| ensures ProofBefore(list[i], list[j]) { ProofOrderMeans(list[i], list[j]); }
  }

  /** What a saturated engine answers, and on what grounds. */
  lemma AnswersAreRight(st: State, a: Atom)
    requires Sound(st) && Saturated(st)
    ensures RightAnswer(ProgramOf(st), st.resolutions, BaseBeliefs(st.beliefs), a, Evaluate(st, a).0, Evaluate(st, a).1)
  {
    hide Lfp, Negated, Believed, ProofBefore, ProgramOf, Concludes, BaseBeliefs;
    OnlyCallersNegate(st, a);
    RecordedAreConcluded(st, a);
    var list := ProofsOf(st.derivations, a);
    ProofsInOrder(list);
    assert list != [] ==> list[0] in list;
    if a !in st.resolutions {
      assert a in st.graph <==> Believed(st.beliefs, a, POSITIVE);
      assert a in st.graph <==> a in Lfp(ProgramOf(st));
    }
  }

  /** Graph, beliefs, resolutions and proofs agree in every sound state. */
  lemma NoProofFromAFalsePremise(st: State, a: Atom, d: DerivationProof, p: Atom)
    requires Sound(st) && Recorded(st.derivations, a, d) && p in d.premises
    ensures !ResolvedFalse(st.resolutions, p) && Believed(st.beliefs, p, POSITIVE) && p in st.graph
  {
    assert Justified(st.rules, st.graph, a, d);
  }

  /** In every state that any run reaches, however its saturations were cut
      short: the edges are the atoms believed and not resolved false, no proof
      rests on an atom resolved false, every atom of the graph has a proof tree,
      and a rank leads each one down to base facts through recorded proofs. */
  lemma EveryRunAgrees(log: Option<seq<Record>>, ops: seq<Op>)
    requires CleanLog(log) && CleanOps(ops) && Run(NewEngine(log), ops).Some?
    ensures var st := Run(NewEngine(log), ops).value;
            && (forall a :: a in st.graph <==> Believed(st.beliefs, a, POSITIVE) && !ResolvedFalse(st.resolutions, a))
            && (forall a, d, p :: Recorded(st.derivations, a, d) && p in d.premises ==> p in st.graph && !ResolvedFalse(st.resolutions, p))
            && (forall a :: a in st.graph ==> Provable(ProgramOf(st), a))
            && WellFounded(st)
  {
    hide Run, NewEngine, CleanOps, CleanLog, ProgramOf, Believed, WellFounded;
    ReachableInvariant(log, ops);
    var st := Run(NewEngine(log), ops).value;
    GraphIsProvable(st);
    forall a, d, p | Recorded(st.derivations, a, d) && p in d.premises ensures p in st.graph && !ResolvedFalse(st.resolutions, p) {
      NoProofFromAFalsePremise(st, a, d, p);
    }
  }

  // ---------- retraction

  ghost predicate Mentions(t: ProofTree, a: Atom)
  {
    t.atom == a || (t.Inference? && exists i :: 0 <= i < |t.premises| && Mentions(t.premises[i], a))
  }

  ghost function Denying(p: Program, a: Atom): Program { p.(denied := p.denied + {a}) }

  lemma {:induction false} TreeAvoids(p: Program, a: Atom, t: ProofTree)
    ensures ValidTree(Denying(p, a), t) <==> ValidTree(p, t) && !Mentions(t, a)
  {
    match t {
      case Fact(_) =>
      case Inference(_, _, ts) =>
        forall i | 0 <= i < |ts|
          ensures ValidTree(Denying(p, a), ts[i]) <==> ValidTree(p, ts[i]) && !Mentions(ts[i], a)
        {
          TreeAvoids(p, a, ts[i]);
        }
    }
  }

  /** The state `Resolve` recomputes. */
  ghost function Resolving(st: State, r: Resolution): State
    requires Resolve(st, r).Some?
  {
    st.(resolutions := st.resolutions[r.atom := r],
        log := Appended(st.log, RESOLUTION_SET, EncodeResolution(r)).value)
  }

  lemma ResolvingWellformed(st: State, r: Resolution)
    requires Wellformed(st) && CleanAtom(r.atom) && Resolve(st, r).Some?
    ensures Wellformed(Resolving(st, r))
  {
    if EncodeResolution(r).Some? { ResolutionRecordClean(r); }
    AppendedClean(st.log, RESOLUTION_SET, EncodeResolution(r));
  }

  lemma ResolvedInvariant(st: State, r: Resolution)
    requires Invariant(st) && CleanAtom(r.atom) && Resolve(st, r).Some?
    ensures Invariant(Resolve(st, r).value)
  {
    StepKeepsInvariant(st, OpResolve(r));
    assert Resolve(st, r) == Step(st, OpResolve(r));
  }

  lemma ResolvedProgram(st: State, r: Resolution)
    requires Wellformed(st) && CleanAtom(r.atom) && Resolve(st, r).Some?
    ensures var t := Resolve(st, r).value;
            && BaseBeliefs(t.beliefs) == BaseBeliefs(st.beliefs) && t.rules == st.rules
            && t.resolutions == st.resolutions[r.atom := r]
            && ProgramOf(t) == ProgramOf(st).(denied := if r.polarity == NEGATIVE then ProgramOf(st).denied + {r.atom}
                                                        else ProgramOf(st).denied - {r.atom})
  {
    var x := Resolving(st, r);
    ResolvingWellformed(st, r);
    assert Resolve(st, r) == Some(Recompute(x));
    RecomputeKeeps(x);
    SameProgram(Recompute(x), x);
    DeniedAfter(st, r, x.log);
  }

  /** Recomputing keeps what the state was told. */
  lemma RecomputeKeeps(x: State)
    requires Wellformed(x)
    ensures var t := Recompute(x);
            && BaseBeliefs(t.beliefs) == BaseBeliefs(x.beliefs) && t.rules == x.rules
            && t.resolutions == x.resolutions && t.log == x.log
  {
    StrippedSound(x);
    ApplyRulesSound(Stripped(x), CAP);
    assert BaseBeliefs(BaseBeliefs(x.beliefs)) == BaseBeliefs(x.beliefs);
  }

  lemma DeniedAfter(st: State, r: Resolution, log: Option<seq<Record>>)
    ensures ProgramOf(st.(resolutions := st.resolutions[r.atom := r], log := log)) ==
            ProgramOf(st).(denied := if r.polarity == NEGATIVE then ProgramOf(st).denied + {r.atom}
                                     else ProgramOf(st).denied - {r.atom})
  {
  }

  /** After a negative resolution an atom stays exactly if it had a proof tree
      that does not rest on the atom resolved false. */
  lemma RetractionIsExact(st: State, r: Resolution, a: Atom)
    requires Invariant(st) && CleanAtom(r.atom) && r.polarity == NEGATIVE && Resolve(st, r).Some?
    requires Bounded(Denying(ProgramOf(st), r.atom), CAP)
    ensures a in Resolve(st, r).value.graph <==>
            exists t :: ValidTree(ProgramOf(st), t) && t.atom == a && !Mentions(t, r.atom)
    ensures Saturated(Resolve(st, r).value)
  {
    var p := ProgramOf(st);
    ResolvedProgram(st, r);
    var q := Denying(p, r.atom);
    StepSaturates(st, OpResolve(r));
    assert a in Resolve(st, r).value.graph <==> Provable(q, a);
    if Provable(q, a) {
      TreeAvoids(p, r.atom, TreeOf(q, a));
    }
    if t :| ValidTree(p, t) && t.atom == a && !Mentions(t, r.atom) {
      TreeAvoids(p, r.atom, t);
    }
  }

  /** Resolving the atom false and then true again restores beliefs, graph and proofs. */
  lemma ResolvingBackRestores(st: State, no: Resolution, yes: Resolution)
    requires Invariant(st) && Saturated(st) && Bounded(ProgramOf(st), CAP)
    requires no.atom == yes.atom && CleanAtom(no.atom) && no.polarity == NEGATIVE && yes.polarity == POSITIVE
    requires !ResolvedFalse(st.resolutions, no.atom)
    requires Resolve(st, no).Some? && Resolve(Resolve(st, no).value, yes).Some?
    ensures var u := Resolve(Resolve(st, no).value, yes).value;
            u.beliefs == st.beliefs && u.graph == st.graph && u.derivations == st.derivations
  {
    hide Resolve, Sound, Saturated, Wellformed, Bounded;
    ResolvedProgram(st, no);
    ResolvedInvariant(st, no);
    var t := Resolve(st, no).value;
    ResolvedProgram(t, yes);
    var u := Resolve(t, yes).value;
    assert ProgramOf(u) == ProgramOf(st);
    StepSaturates(t, OpResolve(yes));
    SaturatedSameProgram(st, u);
  }

  /** Resolutions matter only through the atoms they deny. */
  lemma SaturatedSameProgram(s: State, t: State)
    requires Saturated(s) && Saturated(t) && ProgramOf(s) == ProgramOf(t)
    requires BaseBeliefs(s.beliefs) == BaseBeliefs(t.beliefs) && s.rules == t.rules
    ensures s.beliefs == t.beliefs && s.graph == t.graph && s.derivations == t.derivations
  {
    var s2 := s.(resolutions := t.resolutions);
    assert ProgramOf(s2) == ProgramOf(s);
    SaturatedIsUnique(s2, t);
  }

  /** Denying more never adds to the graph. */
  lemma DenyingNeverAdds(s: State, t: State)
    requires Saturated(s) && Saturated(t) && Includes(ProgramOf(s), ProgramOf(t))
    ensures t.graph <= s.graph
  {
    LfpMonotone(ProgramOf(t), ProgramOf(s));
  }

  // ---------- confluence

  /** Operations that tell the engine something; a replay tells it nothing new. */
  ghost predicate Telling(ops: seq<Op>)
  {
    forall op :: op in ops ==> !op.OpReplay?
  }

  ghost function ItemsTold(items: seq<Item>, source: Str): set<Belief>
  {
    set i | i in items && ValidBelief(ItemBelief(i, source)) :: ItemBelief(i, source)
  }

  ghost function ToldBy(op: Op): set<Belief>
  {
    match op
    case OpIngest(b) => {b}
    case OpBulk(items, source) => ItemsTold(items, source)
    case _ => {}
  }

  /** The beliefs and the rules that the operations bring in. */
  ghost function BeliefsTold(ops: seq<Op>): set<Belief>
  {
    set op, b | op in ops && b in ToldBy(op) :: b
  }

  ghost function RulesTold(ops: seq<Op>): set<Rule>
  {
    set op | op in ops && op.OpAddRule? :: op.r
  }

  ghost function ResolvedBy(m: map<Atom, Resolution>, op: Op): map<Atom, Resolution>
  {
    if op.OpResolve? then m[op.res.atom := op.res] else m
  }

  /** The last resolution of each atom. */
  ghost function ResolutionsTold(m: map<Atom, Resolution>, ops: seq<Op>): map<Atom, Resolution>
    decreases |ops|
  {
    if ops == [] then m else ResolutionsTold(ResolvedBy(m, ops[0]), ops[1..])
  }

  lemma {:induction false} LoadTells(st: State, items: seq<Item>, source: Str)
    ensures var t := Load(st, items, source);
            t.beliefs == st.beliefs + ItemsTold(items, source) && t.rules == st.rules && t.resolutions == st.resolutions
    decreases |items|
  {
    if items != [] {
      var b := ItemBelief(items[0], source);
      assert items == [items[0]] + items[1..];
      if !ValidBelief(b) {
        LoadTells(st, items[1..], source);
        assert ItemsTold(items, source) == ItemsTold(items[1..], source);
      } else {
        var log := Appended(st.log, FACT_ADDED, EncodeBelief(b));
        LoadTells(IngestNoLog(st, b).(log := if log.None? then st.log else log.value), items[1..], source);
        assert ItemsTold(items, source) == {b} + ItemsTold(items[1..], source);
      }
    }
  }

  lemma StepTells(st: State, op: Op)
    requires Invariant(st) && CleanOp(op) && Telling([op]) && Step(st, op).Some?
    ensures var t := Step(st, op).value;
            && BaseBeliefs(t.beliefs) == BaseBeliefs(st.beliefs) + ToldBy(op)
            && t.resolutions == ResolvedBy(st.resolutions, op)
            && (forall r :: r in t.rules <==> r in st.rules || r in RulesTold([op]))
  {
    StepIs(st, op);
    BeforeInvariant(st, op);
    BeforeTells(st, op);
    var s := Before(st, op).value;
    ApplyRulesSound(s, CapOf(op));
  }

  lemma BeforeTells(st: State, op: Op)
    requires CleanOp(op) && Telling([op]) && Before(st, op).Some?
    ensures var t := Before(st, op).value;
            && BaseBeliefs(t.beliefs) == BaseBeliefs(st.beliefs) + ToldBy(op)
            && t.resolutions == ResolvedBy(st.resolutions, op)
            && (forall r :: r in t.rules <==> r in st.rules || r in RulesTold([op]))
  {
    assert op in [op];
    match op {
      case OpIngest(b) =>
      case OpAddRule(r) =>
      case OpResolve(r) => assert BaseBeliefs(BaseBeliefs(st.beliefs)) == BaseBeliefs(st.beliefs);
      case OpBulk(items, source) =>
        LoadTells(st, items, source);
        forall b | b in ItemsTold(items, source) ensures !IsDerived(b) {}
    }
  }

  lemma {:induction false} RunTells(st: State, ops: seq<Op>)
    requires Invariant(st) && CleanOps(ops) && Telling(ops) && Run(st, ops).Some?
    ensures var t := Run(st, ops).value;
            && BaseBeliefs(t.beliefs) == BaseBeliefs(st.beliefs) + BeliefsTold(ops)
            && t.resolutions == ResolutionsTold(st.resolutions, ops)
            && (forall r :: r in t.rules <==> r in st.rules || r in RulesTold(ops))
    decreases |ops|
  {
    hide Invariant, CleanOp, Step, ToldBy;
    if ops != [] {
      var op := ops[0];
      assert op in ops;
      assert ops == [op] + ops[1..];
      assert forall o :: o in ops[1..] ==> o in ops;
      StepKeepsInvariant(st, op);
      StepTells(st, op);
      RunTells(Step(st, op).value, ops[1..]);
      ToldFirst(ops);
    }
  }

  lemma ToldFirst(ops: seq<Op>)
    requires ops != []
    ensures BeliefsTold(ops) == ToldBy(ops[0]) + BeliefsTold(ops[1..])
    ensures RulesTold(ops) == RulesTold([ops[0]]) + RulesTold(ops[1..])
  {
    hide ToldBy;
    assert ops == [ops[0]] + ops[1..];
  }

  /** The facts, denials and rules that the operations bring in. */
  ghost function ProgramTold(ops: seq<Op>): Program
  {
    var resolutions := ResolutionsTold(map[], ops);
    Program(
      (set b | b in BeliefsTold(ops) && b.polarity == 1 :: b.atom),
      (set a | a in resolutions && resolutions[a].polarity == 0),
      RulesTold(ops))
  }

  lemma RunsProgram(log: Option<seq<Record>>, ops: seq<Op>)
    requires CleanLog(log) && CleanOps(ops) && Telling(ops) && Run(NewEngine(log), ops).Some?
    ensures ProgramOf(Run(NewEngine(log), ops).value) == ProgramTold(ops)
    ensures BaseBeliefs(Run(NewEngine(log), ops).value.beliefs) == BeliefsTold(ops)
    ensures Run(NewEngine(log), ops).value.resolutions == ResolutionsTold(map[], ops)
  {
    hide Run, CleanLog, CleanOps, Telling, Invariant, BeliefsTold, RulesTold, ResolutionsTold;
    NewEngineInvariant(log);
    RunTells(NewEngine(log), ops);
    var t := Run(NewEngine(log), ops).value;
    assert BaseBeliefs(NewEngine(log).beliefs) == {};
    assert ProgramOf(t).rules == RulesTold(ops);
    assert ProgramOf(t).denied == ProgramTold(ops).denied;
  }

  /** The truth table of a run, in terms of what it was told: for a resolved atom
      its resolution's; otherwise contradictory, true, false or unknown as the
      atom is provable and a told belief denies it, with its derivations exactly
      if it is true and some rule concludes it. */
  lemma TruthTable(log: Option<seq<Record>>, ops: seq<Op>, a: Atom)
    requires CleanLog(log) && CleanOps(ops) && Telling(ops) && Run(NewEngine(log), ops).Some?
    requires Bounded(ProgramTold(ops), 1000)
    ensures var (truth, proof) := Evaluate(Run(NewEngine(log), ops).value, a);
            RightAnswer(ProgramTold(ops), ResolutionsTold(map[], ops), BeliefsTold(ops), a, truth, proof)
  {
    hide Run, NewEngine, CleanLog, CleanOps, Telling, ProgramOf, ProgramTold, Saturated, Bounded, Sound, RightAnswer,
         Evaluate, BeliefsTold, RulesTold, ResolutionsTold, BaseBeliefs;
    RunsProgram(log, ops);
    ReachableInvariant(log, ops);
    ReachableSaturated(log, ops);
    AnswersAreRight(Run(NewEngine(log), ops).value, a);
  }

  /** Under the bound the end of a run is determined by the base beliefs, the
      resolutions and the rules it ends with, whatever the operations were. */
  lemma SameTellingSameEnd(log1: Option<seq<Record>>, ops1: seq<Op>, log2: Option<seq<Record>>, ops2: seq<Op>)
    requires CleanLog(log1) && CleanOps(ops1) && Run(NewEngine(log1), ops1).Some?
    requires CleanLog(log2) && CleanOps(ops2) && Run(NewEngine(log2), ops2).Some?
    requires Bounded(ProgramOf(Run(NewEngine(log1), ops1).value), CAP)
    requires var s, t := Run(NewEngine(log1), ops1).value, Run(NewEngine(log2), ops2).value;
             && BaseBeliefs(s.beliefs) == BaseBeliefs(t.beliefs) && s.resolutions == t.resolutions
             && forall r :: r in s.rules <==> r in t.rules
    ensures var s, t := Run(NewEngine(log1), ops1).value, Run(NewEngine(log2), ops2).value;
            && s.beliefs == t.beliefs && s.graph == t.graph && s.derivations == t.derivations
            && forall a :: Evaluate(s, a) == Evaluate(t, a)
  {
    hide Run, NewEngine, CleanLog, CleanOps, ProgramOf, Saturated, Bounded;
    var s, t := Run(NewEngine(log1), ops1).value, Run(NewEngine(log2), ops2).value;
    SameProgram(s, t);
    ReachableSaturated(log1, ops1);
    ReachableSaturated(log2, ops2);
    SaturatedIsUnique(s, t);
  }

  /** Runs that tell a new engine the same beliefs and rules, and each atom the
      same last resolution, end with the same beliefs, graph and proof lists: in
      any order, with repetitions, one fact at a time or in bulk, resolved before
      or after it is asserted. */
  lemma Confluence(log1: Option<seq<Record>>, ops1: seq<Op>, log2: Option<seq<Record>>, ops2: seq<Op>)
    requires CleanLog(log1) && CleanOps(ops1) && Telling(ops1) && Run(NewEngine(log1), ops1).Some?
    requires CleanLog(log2) && CleanOps(ops2) && Telling(ops2) && Run(NewEngine(log2), ops2).Some?
    requires BeliefsTold(ops1) == BeliefsTold(ops2) && RulesTold(ops1) == RulesTold(ops2)
    requires ResolutionsTold(map[], ops1) == ResolutionsTold(map[], ops2)
    requires Bounded(ProgramOf(Run(NewEngine(log1), ops1).value), CAP)
    ensures var s, t := Run(NewEngine(log1), ops1).value, Run(NewEngine(log2), ops2).value;
            && s.beliefs == t.beliefs && s.graph == t.graph && s.derivations == t.derivations
            && forall a :: Evaluate(s, a) == Evaluate(t, a)
  {
    hide Run, CleanLog, CleanOps, Telling, ProgramOf, Saturated, Bounded, Invariant;
    NewEngineInvariant(log1);
    NewEngineInvariant(log2);
    RunTells(NewEngine(log1), ops1);
    RunTells(NewEngine(log2), ops2);
    SameTellingSameEnd(log1, ops1, log2, ops2);
  }

  /** The resolutions among the operations, in their order. */
  ghost function Resolves(ops: seq<Op>): seq<Op>
    decreases |ops|
  {
    if ops == [] then [] else (if ops[0].OpResolve? then [ops[0]] else []) + Resolves(ops[1..])
  }

  lemma {:induction false} OnlyResolvesResolve(m: map<Atom, Resolution>, ops: seq<Op>)
    ensures ResolutionsTold(m, ops) == ResolutionsTold(m, Resolves(ops))
    decreases |ops|
  {
    if ops != [] {
      OnlyResolvesResolve(ResolvedBy(m, ops[0]), ops[1..]);
      var rest := Resolves(ops[1..]);
      if ops[0].OpResolve? {
        assert ([ops[0]] + rest)[0] == ops[0] && ([ops[0]] + rest)[1..] == rest;
      } else {
        assert [] + rest == rest;
      }
    }
  }

  /** In particular, any reordering that leaves the resolutions in their order. */
  lemma ReorderingIsConfluent(log1: Option<seq<Record>>, ops1: seq<Op>, log2: Option<seq<Record>>, ops2: seq<Op>)
    requires multiset(ops1) == multiset(ops2) && Resolves(ops1) == Resolves(ops2)
    requires CleanLog(log1) && CleanOps(ops1) && Telling(ops1) && Run(NewEngine(log1), ops1).Some?
    requires CleanLog(log2) && Run(NewEngine(log2), ops2).Some?
    requires Bounded(ProgramOf(Run(NewEngine(log1), ops1).value), CAP)
    ensures var s, t := Run(NewEngine(log1), ops1).value, Run(NewEngine(log2), ops2).value;
            s.beliefs == t.beliefs && s.graph == t.graph && s.derivations == t.derivations
  {
    hide Run, NewEngine, CleanLog, CleanOp, ProgramOf, Bounded, Resolves, ResolutionsTold;
    assert forall op :: op in ops1 <==> op in multiset(ops1);
    assert forall op :: op in ops2 <==> op in multiset(ops2);
    OnlyResolvesResolve(map[], ops1);
    OnlyResolvesResolve(map[], ops2);
    Confluence(log1, ops1, log2, ops2);
  }

  /** One ingest for each item that is valid; a bulk load skips the others too. */
  ghost function IngestEach(items: seq<Item>, source: Str): seq<Op>
    decreases |items|
  {
    if items == [] then [] else
      (if ValidBelief(ItemBelief(items[0], source)) then [OpIngest(ItemBelief(items[0], source))] else [])
      + IngestEach(items[1..], source)
  }

  lemma {:induction false} IngestsAre(items: seq<Item>, source: Str, op: Op)
    ensures op in IngestEach(items, source) <==>
            exists i :: i in items && ValidBelief(ItemBelief(i, source)) && op == OpIngest(ItemBelief(i, source))
    decreases |items|
  {
    hide ValidBelief, ItemBelief;
    if items != [] {
      IngestsAre(items[1..], source, op);
      assert forall i :: i in items <==> i == items[0] || i in items[1..];
    }
  }

  /** And after any such operations, one bulk load against saturating after each
      of its facts; items that are not valid are skipped both ways. */
  lemma BulkIsConfluent(before: seq<Op>, items: seq<Item>, source: Str, log: Option<seq<Record>>)
    requires Telling(before) && CleanOps(before) && CleanOp(OpBulk(items, source)) && CleanLog(log)
    requires Run(NewEngine(log), before + [OpBulk(items, source)]).Some?
    requires Run(NewEngine(log), before + IngestEach(items, source)).Some?
    requires Bounded(ProgramOf(Run(NewEngine(log), before + [OpBulk(items, source)]).value), CAP)
    ensures var s := Run(NewEngine(log), before + [OpBulk(items, source)]).value;
            var t := Run(NewEngine(log), before + IngestEach(items, source)).value;
            s.beliefs == t.beliefs && s.graph == t.graph && s.derivations == t.derivations
  {
    hide Run, NewEngine, Bounded, ProgramOf, ValidBelief, ItemBelief, IngestEach, BeliefsTold, RulesTold, ResolutionsTold,
         Telling, CleanOps, CleanOp, CleanLog;
    BulkIsClean(before, items, source);
    BulkTellsTheSame(before, items, source);
    Confluence(log, before + [OpBulk(items, source)], log, before + IngestEach(items, source));
  }

  lemma BulkIsClean(before: seq<Op>, items: seq<Item>, source: Str)
    requires Telling(before) && CleanOps(before) && CleanOp(OpBulk(items, source))
    ensures CleanOps(before + [OpBulk(items, source)]) && Telling(before + [OpBulk(items, source)])
    ensures CleanOps(before + IngestEach(items, source)) && Telling(before + IngestEach(items, source))
  {
    forall op | op in before + IngestEach(items, source) ensures CleanOp(op) && !op.OpReplay? {
      IngestsAre(items, source, op);
    }
  }

  lemma BulkTellsTheSame(before: seq<Op>, items: seq<Item>, source: Str)
    ensures BeliefsTold(before + [OpBulk(items, source)]) == BeliefsTold(before + IngestEach(items, source))
    ensures RulesTold(before + [OpBulk(items, source)]) == RulesTold(before + IngestEach(items, source))
    ensures ResolutionsTold(map[], before + [OpBulk(items, source)]) == ResolutionsTold(map[], before + IngestEach(items, source))
  {
    hide ValidBelief, ItemBelief, IngestEach;
    var one, each := before + [OpBulk(items, source)], before + IngestEach(items, source);
    forall op ensures op in IngestEach(items, source) <==>
        exists i :: i in items && ValidBelief(ItemBelief(i, source)) && op == OpIngest(ItemBelief(i, source)) {
      IngestsAre(items, source, op);
    }
    forall b ensures b in BeliefsTold(one) <==> b in BeliefsTold(each) {
      if b in BeliefsTold(before) { ToldEarlier(before, [OpBulk(items, source)], IngestEach(items, source), b); }
      if b in BeliefsTold(one) && b !in BeliefsTold(before) {
        var i :| i in items && ValidBelief(ItemBelief(i, source)) && b == ItemBelief(i, source);
        assert OpIngest(b) in each && b in ToldBy(OpIngest(b));
      }
      if b in BeliefsTold(each) {
        var op :| op in each && b in ToldBy(op);
        assert op in before ==> op in one;
        assert OpBulk(items, source) in one;
        assert op !in before ==> b in ToldBy(OpBulk(items, source));
      }
    }
    NoRulesTold(before, [OpBulk(items, source)]);
    NoRulesTold(before, IngestEach(items, source));
    NoResolves(map[], before, [OpBulk(items, source)]);
    NoResolves(map[], before, IngestEach(items, source));
  }

  lemma NoRulesTold(before: seq<Op>, ops: seq<Op>)
    requires forall op :: op in ops ==> !op.OpAddRule?
    ensures RulesTold(before + ops) == RulesTold(before)
  {
    assert forall op :: op in before ==> op in before + ops;
    forall r | r in RulesTold(before) ensures r in RulesTold(before + ops) {
      assert OpAddRule(r) in before + ops;
    }
  }

  lemma ToldEarlier(before: seq<Op>, ops1: seq<Op>, ops2: seq<Op>, b: Belief)
    requires b in BeliefsTold(before)
    ensures b in BeliefsTold(before + ops1) && b in BeliefsTold(before + ops2)
  {
    var op :| op in before && b in ToldBy(op);
    assert op in before + ops1 && op in before + ops2;
  }

  lemma {:induction false} NoResolves(m: map<Atom, Resolution>, before: seq<Op>, ops: seq<Op>)
    requires forall op :: op in ops ==> !op.OpResolve?
    ensures ResolutionsTold(m, before + ops) == ResolutionsTold(m, before)
    decreases |before| + |ops|
  {
    if before != [] {
      assert (before + ops)[0] == before[0] && (before + ops)[1..] == before[1..] + ops;
      NoResolves(ResolvedBy(m, before[0]), before[1..], ops);
    } else if ops != [] {
      assert before + ops == ops && ops[0] in ops && forall op :: op in ops[1..] ==> op in ops;
      assert [] + ops[1..] == ops[1..];
      NoResolves(m, [], ops[1..]);
    } else {
      assert before + ops == [];
    }
  }
}
