/** Whole runs of the engine: every operation keeps the invariant, and under the
    bound every operation ends saturated. */
module Lifecycle {
  import opened Order
  import opened Facts
  import opened Rules
  import opened Datalog
  import opened Codec
  import opened Wal
  import opened Machine
  import opened Soundness
  import opened Exactness

  // ---------- what callers must respect

  /** Callers' sources do not start with `rule:`, and names hold no separators. */
  ghost predicate CleanOp(op: Op)
  {
    match op
    case OpIngest(b) => CleanAtom(b.atom) && !IsDerived(b)
    case OpAddRule(r) => CleanRule(r)
    case OpResolve(r) => CleanAtom(r.atom)
    case OpReplay => true
    case OpBulk(items, source) => !(RULE_PREFIX <= source) && forall i :: i in items ==> CleanAtom(i.atom)
  }

  ghost predicate CleanOps(ops: seq<Op>) { forall op :: op in ops ==> CleanOp(op) }

  predicate NoSeparators(s: Str) { 124 !in s && 59 !in s }

  /** In bytes: no field holds 124 or 59, no rule's name holds 59, nor do its
      conclusion's constants hold either, and no source begins with "rule:". */
  lemma CleanMeans(op: Op, a: Atom)
    ensures CleanAtom(a) <==> NoSeparators(a.from) && NoSeparators(a.pred) && NoSeparators(a.to)
    ensures op.OpIngest? ==> (CleanOp(op) <==> CleanAtom(op.b.atom) && !([114, 117, 108, 101, 58] <= op.b.source))
    ensures op.OpResolve? ==> (CleanOp(op) <==> CleanAtom(op.res.atom))
    ensures op.OpBulk? ==>
              (CleanOp(op) <==> !([114, 117, 108, 101, 58] <= op.source) && forall i :: i in op.items ==> CleanAtom(i.atom))
    ensures op.OpAddRule? ==>
              var c := op.r.conclusion;
              (CleanOp(op) <==> 59 !in op.r.name && (forall f :: f in [c.from, c.pred, c.to] ==> IsVar(f) || NoSeparators(f)))
    ensures op.OpReplay? ==> CleanOp(op)
  {
  }

  /** What a log may hold: anything the clean operations wrote, derived beliefs included. */
  ghost predicate CleanRecord(rec: Record)
  {
    && (rec.kind == FACT_ADDED && DecodeBelief(rec.payload).Some? ==> CleanAtom(DecodeBelief(rec.payload).value.atom))
    && (rec.kind == RESOLUTION_SET && DecodeResolution(rec.payload).Some? ==> CleanAtom(DecodeResolution(rec.payload).value.atom))
    && (rec.kind == RULE_ADDED && DecodeRule(rec.payload).Some? ==> CleanRule(DecodeRule(rec.payload).value))
  }

  ghost predicate CleanLog(log: Option<seq<Record>>)
  {
    log.Some? ==> forall rec :: rec in log.value ==> CleanRecord(rec)
  }

  /** Every resolution is valid, clean and filed under its own atom. */
  ghost predicate KeyedResolutions(st: State)
  {
    forall a :: a in st.resolutions ==>
      st.resolutions[a].atom == a && ValidResolution(st.resolutions[a]) && CleanAtom(a)
  }

  /** The invariant without what saturation restores. */
  ghost predicate Wellformed(st: State)
  {
    && (forall b :: b in st.beliefs ==> ValidBelief(b))
    && CleanState(st) && KeyedResolutions(st) && CleanLog(st.log)
  }

  ghost predicate Invariant(st: State) { Wellformed(st) && Sound(st) }

  // ---------- each operation prepares a sound state and saturates it

  /** How many beliefs an operation may derive. */
  ghost function CapOf(op: Op): int { if op.OpBulk? then 10000 else 1000 }

  /** The state on which an operation calls `ApplyRules`. */
  ghost function Before(st: State, op: Op): Option<State>
  {
    match op
    case OpIngest(b) =>
      if !ValidBelief(b) then None else
        (match Appended(st.log, FACT_ADDED, EncodeBelief(b))
         case None => None
         case Some(log) => Some(IngestNoLog(st, b).(log := log)))
    case OpAddRule(r) =>
      if r.name == [] || r.premises == [] then None else
        (match Appended(st.log, RULE_ADDED, EncodeRule(r))
         case None => None
         case Some(log) => Some(st.(rules := st.rules + [r], log := log)))
    case OpResolve(r) =>
      if !ValidResolution(r) then None else
        (match Appended(st.log, RESOLUTION_SET, EncodeResolution(r))
         case None => None
         case Some(log) => Some(Stripped(st.(resolutions := st.resolutions[r.atom := r], log := log))))
    case OpReplay =>
      if st.log.None? then None else
        (match ReplayRecords(NewEngine(st.log), st.log.value)
         case None => None
         case Some(read) => Some(Stripped(read)))
    case OpBulk(items, source) => Some(Load(st, items, source))
  }

  lemma StepIs(st: State, op: Op)
    ensures Step(st, op) == match Before(st, op)
                            case None => None
                            case Some(s) => Some(ApplyRules(s, CapOf(op)))
  {
  }

  lemma SoundIgnoresLog(st: State, log: Option<seq<Record>>)
    requires Sound(st)
    ensures Sound(st.(log := log))
  {
    var t := st.(log := log);
    var rank: map<Atom, nat>, top: nat :| Ranked(st, rank, top);
    forall a | a in t.graph ensures a in rank && rank[a] < top && (BaseFact(t, a) || Grounded(t, rank, a)) {
      RankStays(st, t, rank, rank, a);
    }
    assert Ranked(t, rank, top);
    assert GraphAgrees(t) && ProofsJustified(t);
    BeliefsStayJustified(st, t);
  }

  lemma BeliefsStayJustified(s: State, t: State)
    requires BeliefsJustified(s) && s.graph <= t.graph
    requires forall r :: r in s.rules ==> r in t.rules
    requires forall b :: b in t.beliefs && IsDerived(b) ==> b in s.beliefs
    ensures BeliefsJustified(t)
  {
    forall b | b in t.beliefs && IsDerived(b)
      ensures exists r, es :: r in t.rules && Within(es, t.graph) && Fire(r, es) == Some(b.atom) && b == DerivedBelief(b.atom, r.name)
    {
      var r, es :| r in s.rules && Within(es, s.graph) && Fire(r, es) == Some(b.atom) && b == DerivedBelief(b.atom, r.name);
      assert r in t.rules && Within(es, t.graph);
    }
  }

  lemma ProofsStayJustified(s: State, t: State)
    requires ProofsJustified(s) && s.graph <= t.graph && s.derivations == t.derivations
    requires forall r :: r in s.rules ==> r in t.rules
    ensures ProofsJustified(t)
  {
    forall a, d | Recorded(t.derivations, a, d) ensures Justified(t.rules, t.graph, a, d) {
      assert Justified(s.rules, s.graph, a, d);
      var r :| r in s.rules && r.name == d.rule && Fire(r, d.premises) == Some(a);
      assert r in t.rules;
    }
  }

  lemma IngestAgrees(st: State, b: Belief)
    requires GraphAgrees(st)
    ensures GraphAgrees(IngestNoLog(st, b))
  {
    var t := IngestNoLog(st, b);
    forall a ensures a in t.graph <==> Believed(t.beliefs, a, POSITIVE) && !ResolvedFalse(t.resolutions, a) {
      if Believed(st.beliefs, a, POSITIVE) {
        var c :| c in st.beliefs && c.atom == a && c.polarity == POSITIVE;
        assert c in t.beliefs;
      }
      if ValidBelief(b) && b.polarity == POSITIVE && a == b.atom { assert b in t.beliefs; }
    }
  }

  /** A caller's belief keeps the invariant. */
  lemma IngestSound(st: State, b: Belief)
    requires Sound(st) && CleanAtom(b.atom) && !IsDerived(b)
    ensures Sound(IngestNoLog(st, b))
  {
    if ValidBelief(b) {
      var t := IngestNoLog(st, b);
      IngestAgrees(st, b);
      ProofsStayJustified(st, t);
      BeliefsStayJustified(st, t);
      var rank: map<Atom, nat>, top: nat :| Ranked(st, rank, top);
      var rank2 := if b.atom in st.graph then rank else rank[b.atom := top];
      IngestRanked(st, b, rank, rank2, top);
    }
  }

  lemma IngestRanked(st: State, b: Belief, rank: map<Atom, nat>, rank2: map<Atom, nat>, top: nat)
    requires Ranked(st, rank, top) && ValidBelief(b) && !IsDerived(b)
    requires rank2 == if b.atom in st.graph then rank else rank[b.atom := top]
    ensures Ranked(IngestNoLog(st, b), rank2, top + 1)
  {
    var t := IngestNoLog(st, b);
    forall a | a in t.graph ensures a in rank2 && rank2[a] < top + 1 && (BaseFact(t, a) || Grounded(t, rank2, a)) {
      if a in st.graph {
        RankStays(st, t, rank, rank2, a);
      } else {
        assert b in t.beliefs;
      }
    }
  }

  /** A new rule keeps the invariant. */
  lemma AddedRuleSound(st: State, r: Rule)
    requires Sound(st) && CleanRule(r)
    ensures Sound(st.(rules := st.rules + [r]))
  {
    var t := st.(rules := st.rules + [r]);
    var rank: map<Atom, nat>, top: nat :| Ranked(st, rank, top);
    forall a | a in t.graph ensures a in rank && rank[a] < top && (BaseFact(t, a) || Grounded(t, rank, a)) {
      RankStays(st, t, rank, rank, a);
    }
    assert Ranked(t, rank, top);
    ProofsStayJustified(st, t);
    BeliefsStayJustified(st, t);
  }

  /** What `recompute` starts from is sound, whatever the state was. */
  lemma StrippedSound(st: State)
    requires (forall b :: b in st.beliefs ==> ValidBelief(b)) && CleanState(st)
    ensures Sound(Stripped(st))
  {
    var t := Stripped(st);
    var rank: map<Atom, nat> := map a | a in t.graph :: 0;
    forall a | a in t.graph ensures BaseFact(t, a) {}
    assert Ranked(t, rank, 1);
    forall a ensures a in t.graph <==> Believed(t.beliefs, a, POSITIVE) && !ResolvedFalse(t.resolutions, a) {}
  }

  // ---------- replay reads a well-formed state

  lemma ReplayRecordWellformed(st: State, rec: Record)
    requires Wellformed(st) && CleanRecord(rec) && ReplayRecord(st, rec).Some?
    ensures Wellformed(ReplayRecord(st, rec).value)
  {
    hide ValidBelief, ValidAtom, CleanAtom, CleanRule, DecodeBelief, DecodeRule, DecodeResolution, ResolvedFalse;
  }

  lemma {:induction false} ReplayWellformed(st: State, recs: seq<Record>)
    requires Wellformed(st) && (forall rec :: rec in recs ==> CleanRecord(rec)) && ReplayRecords(st, recs).Some?
    ensures Wellformed(ReplayRecords(st, recs).value)
    decreases |recs|
  {
    if recs != [] {
      assert recs[0] in recs;
      ReplayRecordWellformed(st, recs[0]);
      assert forall rec :: rec in recs[1..] ==> rec in recs;
      ReplayWellformed(ReplayRecord(st, recs[0]).value, recs[1..]);
    }
  }

  lemma AppendedClean(log: Option<seq<Record>>, kind: EventType, payload: Option<Bytes>)
    requires CleanLog(log) && Appended(log, kind, payload).Some?
    requires payload.Some? ==> CleanRecord(Record(kind, payload.value))
    ensures CleanLog(Appended(log, kind, payload).value)
  {
  }

  lemma FactRecordClean(b: Belief)
    requires CleanAtom(b.atom) && EncodeBelief(b).Some?
    ensures CleanRecord(Record(FACT_ADDED, EncodeBelief(b).value))
  {
    BeliefRoundTrip(b);
  }

  lemma RuleRecordClean(r: Rule)
    requires CleanRule(r) && EncodeRule(r).Some?
    ensures CleanRecord(Record(RULE_ADDED, EncodeRule(r).value))
  {
    RuleRoundTrip(r);
  }

  lemma ResolutionRecordClean(r: Resolution)
    requires CleanAtom(r.atom) && EncodeResolution(r).Some?
    ensures CleanRecord(Record(RESOLUTION_SET, EncodeResolution(r).value))
  {
    ResolutionRoundTrip(r);
  }

  lemma {:induction false} LoadInvariant(st: State, items: seq<Item>, source: Str)
    requires Invariant(st) && CleanOp(OpBulk(items, source))
    ensures Invariant(Load(st, items, source))
    decreases |items|
  {
    if items != [] {
      var b := ItemBelief(items[0], source);
      assert items[0] in items;
      assert forall i :: i in items[1..] ==> i in items;
      if !ValidBelief(b) {
        LoadInvariant(st, items[1..], source);
      } else {
        var log := Appended(st.log, FACT_ADDED, EncodeBelief(b));
        if EncodeBelief(b).Some? { FactRecordClean(b); }
        if log.Some? { AppendedClean(st.log, FACT_ADDED, EncodeBelief(b)); }
        var log2 := if log.None? then st.log else log.value;
        IngestSound(st, b);
        SoundIgnoresLog(IngestNoLog(st, b), log2);
        LoadInvariant(IngestNoLog(st, b).(log := log2), items[1..], source);
      }
    }
  }

  lemma BeforeIngest(st: State, b: Belief)
    requires Invariant(st) && CleanOp(OpIngest(b)) && Before(st, OpIngest(b)).Some?
    ensures Invariant(Before(st, OpIngest(b)).value)
  {
    var log := Appended(st.log, FACT_ADDED, EncodeBelief(b)).value;
    if EncodeBelief(b).Some? { FactRecordClean(b); }
    AppendedClean(st.log, FACT_ADDED, EncodeBelief(b));
    IngestSound(st, b);
    SoundIgnoresLog(IngestNoLog(st, b), log);
  }

  lemma BeforeAddRule(st: State, r: Rule)
    requires Invariant(st) && CleanOp(OpAddRule(r)) && Before(st, OpAddRule(r)).Some?
    ensures Invariant(Before(st, OpAddRule(r)).value)
  {
    var log := Appended(st.log, RULE_ADDED, EncodeRule(r)).value;
    if EncodeRule(r).Some? { RuleRecordClean(r); }
    AppendedClean(st.log, RULE_ADDED, EncodeRule(r));
    AddedRuleSound(st, r);
    SoundIgnoresLog(st.(rules := st.rules + [r]), log);
  }

  lemma BeforeResolve(st: State, r: Resolution)
    requires Invariant(st) && CleanOp(OpResolve(r)) && Before(st, OpResolve(r)).Some?
    ensures Invariant(Before(st, OpResolve(r)).value)
  {
    var log := Appended(st.log, RESOLUTION_SET, EncodeResolution(r)).value;
    if EncodeResolution(r).Some? { ResolutionRecordClean(r); }
    AppendedClean(st.log, RESOLUTION_SET, EncodeResolution(r));
    StrippedSound(st.(resolutions := st.resolutions[r.atom := r], log := log));
  }

  lemma BeforeReplay(st: State)
    requires Invariant(st) && Before(st, OpReplay).Some?
    ensures Invariant(Before(st, OpReplay).value)
  {
    ReplayWellformed(NewEngine(st.log), st.log.value);
    StrippedSound(ReplayRecords(NewEngine(st.log), st.log.value).value);
  }

  lemma BeforeInvariant(st: State, op: Op)
    requires Invariant(st) && CleanOp(op) && Before(st, op).Some?
    ensures Invariant(Before(st, op).value)
  {
    match op {
      case OpIngest(b) => BeforeIngest(st, b);
      case OpAddRule(r) => BeforeAddRule(st, r);
      case OpResolve(r) => BeforeResolve(st, r);
      case OpReplay => BeforeReplay(st);
      case OpBulk(items, source) => LoadInvariant(st, items, source);
    }
  }

  lemma SaturatingKeepsInvariant(st: State, cap: int)
    requires Invariant(st)
    ensures Invariant(ApplyRules(st, cap))
  {
    ApplyRulesSound(st, cap);
  }

  /** Every operation that returns no error keeps the invariant, caps or not. */
  lemma StepKeepsInvariant(st: State, op: Op)
    requires Invariant(st) && CleanOp(op) && Step(st, op).Some?
    ensures Invariant(Step(st, op).value)
  {
    StepIs(st, op);
    BeforeInvariant(st, op);
    SaturatingKeepsInvariant(Before(st, op).value, CapOf(op));
  }

  lemma {:induction false} RunConcat(st: State, a: seq<Op>, b: seq<Op>)
    ensures Run(st, a + b) == if Run(st, a).None? then None else Run(Run(st, a).value, b)
    decreases |a|
  {
    hide Step;
    if a == [] {
      assert a + b == b;
    } else {
      assert (a + b)[0] == a[0] && (a + b)[1..] == a[1..] + b;
      if Step(st, a[0]).Some? { RunConcat(Step(st, a[0]).value, a[1..], b); }
    }
  }

  lemma RunOne(st: State, op: Op)
    ensures Run(st, [op]) == Step(st, op)
  {
    assert [op][0] == op && [op][1..] == [];
  }

  lemma NoRulesNoChange(st: State, cap: int)
    requires st.rules == []
    ensures ApplyRules(st, cap) == st
  {
  }

  lemma RunNone(st: State)
    ensures Run(st, []) == Some(st)
  {
  }

  lemma NewEngineInvariant(log: Option<seq<Record>>)
    requires CleanLog(log)
    ensures Invariant(NewEngine(log)) && Saturated(NewEngine(log))
  {
    var st := NewEngine(log);
    assert Ranked(st, map[], 0);
    assert Closed(ProgramOf(st), {});
    LfpLeast(ProgramOf(st), {});
  }

  lemma {:induction false} RunFrom(st: State, ops: seq<Op>)
    requires Invariant(st) && CleanOps(ops) && Run(st, ops).Some?
    ensures Invariant(Run(st, ops).value)
    decreases |ops|
  {
    if ops != [] {
      assert ops[0] in ops;
      StepKeepsInvariant(st, ops[0]);
      assert forall op :: op in ops[1..] ==> op in ops;
      RunFrom(Step(st, ops[0]).value, ops[1..]);
    }
  }

  /** Every reachable state satisfies the invariant. */
  lemma ReachableInvariant(log: Option<seq<Record>>, ops: seq<Op>)
    requires CleanLog(log) && CleanOps(ops) && Run(NewEngine(log), ops).Some?
    ensures Invariant(Run(NewEngine(log), ops).value)
  {
    NewEngineInvariant(log);
    RunFrom(NewEngine(log), ops);
  }

  // ---------- under the bound every operation ends saturated

  lemma LargerCap(p: Program, m: int, n: int)
    requires Bounded(p, m) && m <= n
    ensures Bounded(p, n)
  {
  }

  lemma StepSaturates(st: State, op: Op)
    requires Invariant(st) && CleanOp(op) && Step(st, op).Some?
    requires Bounded(ProgramOf(Step(st, op).value), CapOf(op))
    ensures Saturated(Step(st, op).value)
  {
    StepIs(st, op);
    BeforeInvariant(st, op);
    var s := Before(st, op).value;
    ApplyRulesSound(s, CapOf(op));
    SameProgram(s, ApplyRules(s, CapOf(op)));
    ApplyRulesExact(s, CapOf(op));
  }

  lemma {:induction false} RunSaturatesFrom(st: State, ops: seq<Op>)
    requires Invariant(st) && CleanOps(ops) && Run(st, ops).Some? && (ops == [] ==> Saturated(st))
    requires Bounded(ProgramOf(Run(st, ops).value), CAP)
    ensures Saturated(Run(st, ops).value)
    decreases |ops|
  {
    if ops != [] {
      assert ops[0] in ops;
      StepKeepsInvariant(st, ops[0]);
      if |ops| == 1 {
        LargerCap(ProgramOf(Step(st, ops[0]).value), CAP, CapOf(ops[0]));
        StepSaturates(st, ops[0]);
      }
      assert forall op :: op in ops[1..] ==> op in ops;
      RunSaturatesFrom(Step(st, ops[0]).value, ops[1..]);
    }
  }

  /** Only the bound on the final state counts: what an earlier saturation cut
      off, the last one makes up for. */
  lemma ReachableSaturated(log: Option<seq<Record>>, ops: seq<Op>)
    requires CleanLog(log) && CleanOps(ops) && Run(NewEngine(log), ops).Some?
    requires Bounded(ProgramOf(Run(NewEngine(log), ops).value), CAP)
    ensures Saturated(Run(NewEngine(log), ops).value)
  {
    NewEngineInvariant(log);
    RunSaturatesFrom(NewEngine(log), ops);
  }
}
