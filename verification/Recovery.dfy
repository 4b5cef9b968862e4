/** The log: replay gives back the live engine, also after a torn write. */
module Recovery {
  import opened Order
  import opened Facts
  import opened Rules
  import opened Datalog
  import opened Codec
  import opened Wal
  import opened Machine
  import opened Soundness
  import opened Exactness
  import opened Lifecycle

  /** A rule without a conclusion object encodes but does not decode. */
  predicate HasObjects(rules: seq<Rule>) { forall r :: r in rules ==> r.conclusion.to != [] }

  ghost predicate SameTold(s: State, t: State)
  {
    BaseBeliefs(s.beliefs) == BaseBeliefs(t.beliefs) && s.resolutions == t.resolutions && s.rules == t.rules
  }

  ghost function ReadLog(log: seq<Record>): Option<State> { ReplayRecords(NewEngine(Some(log)), log) }

  /** The base beliefs that a record can hold.  A bulk load keeps the others too,
      but does not log them. */
  ghost function Logged(beliefs: set<Belief>): set<Belief>
  {
    set b | b in BaseBeliefs(beliefs) && EncodeBelief(b).Some?
  }

  /** `read` is what the log of `st` says. */
  ghost predicate SaysOf(read: State, st: State)
  {
    BaseBeliefs(read.beliefs) == Logged(st.beliefs) && read.resolutions == st.resolutions && read.rules == st.rules
  }

  /** The log says what of the state could be logged, and reads back unless a rule does not. */
  ghost predicate Faithful(st: State)
  {
    && st.log.Some? && (forall rec :: rec in st.log.value ==> Appendable(rec))
    && (HasObjects(st.rules) ==> ReadLog(st.log.value).Some? && SaysOf(ReadLog(st.log.value).value, st))
    && (!HasObjects(st.rules) ==> ReadLog(st.log.value).None?)
  }

  lemma {:induction false} ReplayIgnoresLog(st: State, log: Option<seq<Record>>, recs: seq<Record>)
    ensures ReplayRecords(st.(log := log), recs) ==
            match ReplayRecords(st, recs)
            case None => None
            case Some(t) => Some(t.(log := log))
    decreases |recs|
  {
    if recs != [] {
      match ReplayRecord(st, recs[0]) {
        case None =>
        case Some(t) => ReplayIgnoresLog(t, log, recs[1..]);
      }
    }
  }

  lemma {:induction false} ReplayAppend(st: State, recs: seq<Record>, rec: Record)
    ensures ReplayRecords(st, recs + [rec]) ==
            match ReplayRecords(st, recs)
            case None => None
            case Some(t) => ReplayRecord(t, rec)
    decreases |recs|
  {
    if recs == [] {
      assert ([] + [rec])[0] == rec && ([] + [rec])[1..] == [];
    } else {
      assert (recs + [rec])[0] == recs[0] && (recs + [rec])[1..] == recs[1..] + [rec];
      match ReplayRecord(st, recs[0]) {
        case None =>
        case Some(t) => ReplayAppend(t, recs[1..], rec);
      }
    }
  }

  lemma ReadLogAppend(log: seq<Record>, rec: Record)
    ensures ReadLog(log + [rec]) ==
            match ReadLog(log)
            case None => None
            case Some(t) => ReplayRecord(t.(log := Some(log + [rec])), rec)
  {
    ReplayIgnoresLog(NewEngine(Some(log)), Some(log + [rec]), log);
    ReplayAppend(NewEngine(Some(log + [rec])), log, rec);
  }

  lemma FactReplays(st: State, b: Belief)
    requires ValidBelief(b) && EncodeBelief(b).Some?
    ensures ReplayRecord(st, Record(FACT_ADDED, EncodeBelief(b).value)) == Some(IngestNoLog(st, b))
  {
    BeliefRoundTrip(b);
  }

  lemma ResolutionReplays(st: State, r: Resolution)
    requires ValidResolution(r) && EncodeResolution(r).Some?
    ensures ReplayRecord(st, Record(RESOLUTION_SET, EncodeResolution(r).value))
            == Some(st.(resolutions := st.resolutions[r.atom := r]))
  {
    ResolutionRoundTrip(r);
  }

  lemma RuleReplays(st: State, r: Rule)
    requires EncodeRule(r).Some?
    ensures ReplayRecord(st, Record(RULE_ADDED, EncodeRule(r).value))
            == if r.conclusion.to == [] then None else Some(st.(rules := st.rules + [r]))
  {
    RuleRoundTrip(r);
  }

  /** One more record in the log is one more step when it is read back. */
  lemma FactRead(log: seq<Record>, b: Belief, payload: Bytes)
    requires ValidBelief(b) && EncodeBelief(b) == Some(payload)
    ensures var more := log + [Record(FACT_ADDED, payload)];
            ReadLog(more) == if ReadLog(log).None? then None
                             else Some(IngestNoLog(ReadLog(log).value.(log := Some(more)), b))
  {
    var more := log + [Record(FACT_ADDED, payload)];
    ReadLogAppend(log, Record(FACT_ADDED, payload));
    if ReadLog(log).Some? { FactReplays(ReadLog(log).value.(log := Some(more)), b); }
  }

  lemma ResolutionRead(log: seq<Record>, r: Resolution, payload: Bytes)
    requires ValidResolution(r) && EncodeResolution(r) == Some(payload)
    ensures var more := log + [Record(RESOLUTION_SET, payload)];
            ReadLog(more) ==
            if ReadLog(log).None? then None
            else Some(ReadLog(log).value.(log := Some(more), resolutions := ReadLog(log).value.resolutions[r.atom := r]))
  {
    var more := log + [Record(RESOLUTION_SET, payload)];
    ReadLogAppend(log, Record(RESOLUTION_SET, payload));
    if ReadLog(log).Some? { ResolutionReplays(ReadLog(log).value.(log := Some(more)), r); }
  }

  lemma RuleRead(log: seq<Record>, r: Rule, payload: Bytes)
    requires EncodeRule(r) == Some(payload)
    ensures var more := log + [Record(RULE_ADDED, payload)];
            ReadLog(more) ==
            if ReadLog(log).None? || r.conclusion.to == [] then None
            else Some(ReadLog(log).value.(log := Some(more), rules := ReadLog(log).value.rules + [r]))
  {
    var more := log + [Record(RULE_ADDED, payload)];
    ReadLogAppend(log, Record(RULE_ADDED, payload));
    if ReadLog(log).Some? { RuleReplays(ReadLog(log).value.(log := Some(more)), r); }
  }

  lemma FactLogged(st: State, b: Belief, log: seq<Record>, payload: Bytes)
    requires Faithful(st) && ValidBelief(b) && EncodeBelief(b) == Some(payload)
    requires log == st.log.value + [Record(FACT_ADDED, payload)] && Appendable(Record(FACT_ADDED, payload))
    ensures Faithful(IngestNoLog(st, b).(log := Some(log)))
  {
    FactRead(st.log.value, b, payload);
    if HasObjects(st.rules) {
      BaseBeliefsAdd(ReadLog(st.log.value).value.beliefs, b);
      LoggedAdds(st.beliefs, b);
    }
  }

  lemma BaseBeliefsAdd(s: set<Belief>, b: Belief)
    ensures BaseBeliefs(s + {b}) == BaseBeliefs(s) + BaseBeliefs({b})
  {
  }

  lemma LoggedAdds(s: set<Belief>, b: Belief)
    ensures Logged(s + {b}) == Logged(s) + (if EncodeBelief(b).Some? then BaseBeliefs({b}) else {})
  {
  }

  lemma RuleLogged(st: State, r: Rule, log: seq<Record>, payload: Bytes)
    requires Faithful(st) && EncodeRule(r) == Some(payload)
    requires log == st.log.value + [Record(RULE_ADDED, payload)] && Appendable(Record(RULE_ADDED, payload))
    ensures Faithful(st.(rules := st.rules + [r], log := Some(log)))
  {
    RuleRead(st.log.value, r, payload);
    assert forall q :: q in st.rules + [r] <==> q in st.rules || q == r;
  }

  lemma ResolutionLogged(st: State, r: Resolution, log: seq<Record>, payload: Bytes)
    requires Faithful(st) && ValidResolution(r) && EncodeResolution(r) == Some(payload)
    requires log == st.log.value + [Record(RESOLUTION_SET, payload)] && Appendable(Record(RESOLUTION_SET, payload))
    ensures Faithful(st.(resolutions := st.resolutions[r.atom := r], log := Some(log)))
  {
    ResolutionRead(st.log.value, r, payload);
  }

  /** A belief takes under 2^18 bytes, so its record always fits. */
  lemma FactFits(b: Belief)
    ensures EncodeBelief(b).Some? ==> Appendable(Record(FACT_ADDED, EncodeBelief(b).value))
  {
    if EncodeBelief(b).Some? {
      assert |EncodeBelief(b).value| <= 4 * 0xffff + 17;
    }
  }

  lemma {:induction false} LoadLogged(st: State, items: seq<Item>, source: Str)
    requires Faithful(st)
    ensures Faithful(Load(st, items, source))
    decreases |items|
  {
    hide Faithful, EncodeBelief, ValidBelief;
    if items != [] {
      var b := ItemBelief(items[0], source);
      FactFits(b);
      if !ValidBelief(b) {
        LoadLogged(st, items[1..], source);
      } else if EncodeBelief(b).None? {
        FactNotLogged(st, b);
        assert IngestNoLog(st, b).log == st.log;
        LoadLogged(IngestNoLog(st, b).(log := st.log), items[1..], source);
      } else {
        FaithfulHasLog(st);
        var log := Appended(st.log, FACT_ADDED, EncodeBelief(b)).value;
        FactLogged(st, b, log.value, EncodeBelief(b).value);
        LoadLogged(IngestNoLog(st, b).(log := log), items[1..], source);
      }
    }
  }

  lemma FaithfulHasLog(st: State)
    requires Faithful(st)
    ensures st.log.Some?
  {
  }

  /** What does not encode is believed, and the log stays as it was. */
  lemma FactNotLogged(st: State, b: Belief)
    requires Faithful(st) && EncodeBelief(b).None?
    ensures Faithful(IngestNoLog(st, b))
  {
    LoggedAdds(st.beliefs, b);
  }

  /** Two states told the same with the same log are equally faithful. */
  lemma FaithfulCarries(s: State, t: State)
    requires Faithful(s) && SameTold(s, t) && s.log == t.log
    ensures Faithful(t)
  {
  }

  lemma {:induction false} ReplayKeepsLog(st: State, recs: seq<Record>)
    ensures ReplayRecords(st, recs).Some? ==> ReplayRecords(st, recs).value.log == st.log
    decreases |recs|
  {
    if recs != [] && ReplayRecord(st, recs[0]).Some? { ReplayKeepsLog(ReplayRecord(st, recs[0]).value, recs[1..]); }
  }

  lemma StrippedTold(x: State)
    ensures SameTold(Stripped(x), x) && Stripped(x).log == x.log
  {
    assert BaseBeliefs(BaseBeliefs(x.beliefs)) == BaseBeliefs(x.beliefs);
  }

  lemma BeforeFaithful(st: State, op: Op)
    requires Faithful(st) && Before(st, op).Some?
    ensures Faithful(Before(st, op).value)
  {
    match op {
      case OpIngest(b) =>
        FactLogged(st, b, Appended(st.log, FACT_ADDED, EncodeBelief(b)).value.value, EncodeBelief(b).value);
      case OpAddRule(r) =>
        RuleLogged(st, r, Appended(st.log, RULE_ADDED, EncodeRule(r)).value.value, EncodeRule(r).value);
      case OpResolve(r) =>
        var log := Appended(st.log, RESOLUTION_SET, EncodeResolution(r)).value;
        ResolutionLogged(st, r, log.value, EncodeResolution(r).value);
        var x := st.(resolutions := st.resolutions[r.atom := r], log := log);
        StrippedTold(x);
        FaithfulCarries(x, Stripped(x));
      case OpReplay =>
        var x := ReadLog(st.log.value).value;
        ReplayKeepsLog(NewEngine(st.log), st.log.value);
        StrippedTold(x);
        assert Logged(Stripped(x).beliefs) == BaseBeliefs(x.beliefs);
      case OpBulk(items, source) => LoadLogged(st, items, source);
    }
  }

  lemma StepFaithful(st: State, op: Op)
    requires Invariant(st) && Faithful(st) && CleanOp(op) && Step(st, op).Some?
    ensures Faithful(Step(st, op).value)
  {
    StepIs(st, op);
    BeforeInvariant(st, op);
    BeforeFaithful(st, op);
    var s := Before(st, op).value;
    ApplyRulesSound(s, CapOf(op));
    FaithfulCarries(s, ApplyRules(s, CapOf(op)));
  }

  lemma {:induction false} RunFaithful(st: State, ops: seq<Op>)
    requires Invariant(st) && Faithful(st) && CleanOps(ops) && Run(st, ops).Some?
    ensures Faithful(Run(st, ops).value)
    decreases |ops|
  {
    if ops != [] {
      assert ops[0] in ops;
      StepKeepsInvariant(st, ops[0]);
      StepFaithful(st, ops[0]);
      assert forall op :: op in ops[1..] ==> op in ops;
      RunFaithful(Step(st, ops[0]).value, ops[1..]);
    }
  }

  lemma NewLogFaithful()
    ensures Faithful(NewEngine(Some([])))
  {
    assert ReadLog([]) == Some(NewEngine(Some([])));
  }

  /** Replay gives the saturated state that was told what the log says. */
  lemma ReplaySaysTheLog(st: State)
    requires Invariant(st) && Faithful(st) && Bounded(ProgramOf(st), CAP) && HasObjects(st.rules)
    ensures ReplayFromLog(st).Some?
    ensures var t := ReplayFromLog(st).value;
            SaysOf(t, st) && t.log == st.log && Saturated(t) && Sound(t)
  {
    var read := ReadLog(st.log.value).value;
    ReplayKeepsLog(NewEngine(st.log), st.log.value);
    NewEngineInvariant(st.log);
    ReplayWellformed(NewEngine(st.log), st.log.value);
    StrippedSound(read);
    StrippedTold(read);
    LogSaysNoMore(read, st);
    BoundedInherits(ProgramOf(Stripped(read)), ProgramOf(st), CAP);
    ApplyRulesExact(Stripped(read), CAP);
  }

  lemma LogSaysNoMore(read: State, st: State)
    requires SaysOf(read, st)
    ensures Includes(ProgramOf(st), ProgramOf(Stripped(read)))
  {
    StrippedTold(read);
  }

  /** Every asserted belief can be logged. */
  ghost predicate AllLogged(st: State)
  {
    forall b :: b in BaseBeliefs(st.beliefs) ==> EncodeBelief(b).Some?
  }

  /** Replay against the live run, for any run under the bound.  The log reads
      back exactly if every rule has a conclusion object.  Then replay gives the
      saturated state that was told all that could be logged, and this is the
      live state exactly if every asserted belief could be. */
  lemma ReplayRefinesTheRun(ops: seq<Op>)
    requires CleanOps(ops) && Run(NewEngine(Some([])), ops).Some?
    requires Bounded(ProgramOf(Run(NewEngine(Some([])), ops).value), CAP)
    ensures var st := Run(NewEngine(Some([])), ops).value;
            && (ReplayFromLog(st).Some? <==> HasObjects(st.rules))
            && (ReplayFromLog(st) == Some(st) <==> HasObjects(st.rules) && AllLogged(st))
            && (HasObjects(st.rules) ==>
                  var t := ReplayFromLog(st).value; SaysOf(t, st) && t.log == st.log && Saturated(t))
  {
    hide Run, Faithful, HasObjects, ReplayFromLog, Saturated, Bounded, Invariant, ProgramOf, EncodeBelief, CleanOps;
    var start := NewEngine(Some([]));
    var st := Run(start, ops).value;
    NewEngineInvariant(Some([]));
    NewLogFaithful();
    RunFrom(start, ops);
    RunFaithful(start, ops);
    RunSaturatesFrom(start, ops);
    if HasObjects(st.rules) {
      ReplaySaysTheLog(st);
      if AllLogged(st) {
        assert Logged(st.beliefs) == BaseBeliefs(st.beliefs);
        SaturatedIsUnique(ReplayFromLog(st).value, st);
      }
    } else {
      Unread(st);
    }
  }

  // ---------- what is lost

  /** One byte too long for a record. */
  function LongName(): Str { seq(0x1_0000, _ => 97) }

  const LONG_ITEM: Item := Item(Triple(LongName(), [98], [99]), POSITIVE)

  /** A bulk load of one item that does not fit a record: believed, in the graph,
      not in the log, and gone after a replay that reports no error. */
  lemma BulkLosesAFact() returns (st: State)
    ensures var ops := [OpBulk([LONG_ITEM], [115])];
            CleanOps(ops) && Run(NewEngine(Some([])), ops) == Some(st)
    ensures st.graph == {LONG_ITEM.atom} && Evaluate(st, LONG_ITEM.atom) == (True, ByBelief) && st.log == Some([])
    ensures ReplayFromLog(st) == Some(NewEngine(Some([])))
  {
    hide LongName, ApplyRules;
    var start, op := NewEngine(Some([])), OpBulk([LONG_ITEM], [115]);
    assert |LongName()| == 0x1_0000 && CleanAtom(LONG_ITEM.atom) by { LongNameIs(); }
    var b := ItemBelief(LONG_ITEM, [115]);
    assert EncodeBelief(b).None? && ValidBelief(b);
    assert [LONG_ITEM][0] == LONG_ITEM && [LONG_ITEM][1..] == [];
    st := IngestNoLog(start, b);
    assert Load(st, [], [115]) == st;
    assert Load(start, [LONG_ITEM], [115]) == st;
    NoRulesNoChange(st, BULK_CAP);
    RunOne(start, op);
    assert [op][0] == op && [op][1..] == [];
    assert b in st.beliefs;
    NothingReadBack(st);
  }

  lemma LongNameIs()
    ensures |LongName()| == 0x1_0000 && Clean(LongName())
  {
  }

  lemma NothingReadBack(st: State)
    requires st.log == Some([])
    ensures ReplayFromLog(st) == Some(NewEngine(Some([])))
  {
    var start := NewEngine(Some([]));
    assert Stripped(start) == start;
    NoRulesNoChange(start, CAP);
  }

  const EMPTY_OBJECT: Rule := Rule([114], [Triple([97], [98], [99])], Triple([97], [98], []))

  /** `AddRule` accepts and logs such a rule, and from then on nothing reads the log. */
  lemma UnreadableLog() returns (st: State)
    ensures var ops := [OpAddRule(EMPTY_OBJECT)];
            CleanOps(ops) && Run(NewEngine(Some([])), ops) == Some(st)
    ensures !HasObjects(st.rules) && ReplayFromLog(st) == None
    ensures Invariant(st) && st.rules == [EMPTY_OBJECT] && st.resolutions == map[] && BaseBeliefs(st.beliefs) == {}
  {
    hide ApplyRules, RuleBytes, ReadLog, ReplayRecords;
    var start, r := NewEngine(Some([])), EMPTY_OBJECT;
    var ops := [OpAddRule(r)];
    assert ops[0] == OpAddRule(r) && ops[1..] == [];
    assert EncodeRule(r) == Some(RuleBytes(r)) && Appendable(Record(RULE_ADDED, RuleBytes(r))) by { SmallRule(r); }
    NewEngineInvariant(Some([]));
    NewLogFaithful();
    RunFaithful(start, ops);
    StepIs(start, OpAddRule(r));
    var x := Before(start, OpAddRule(r)).value;
    BeforeInvariant(start, OpAddRule(r));
    ApplyRulesSound(x, CAP);
    assert r in x.rules;
    st := Run(start, ops).value;
    StepKeepsInvariant(start, OpAddRule(r));
    Unread(st);
  }

  lemma SmallRule(r: Rule)
    requires r == EMPTY_OBJECT
    ensures RuleFits(r) && |RuleBytes(r)| <= 0xffff_ffff
  {
    assert r.premises[1..] == [];
    assert PatternsBytes(r.premises) == PatternBytes(r.premises[0]) + PatternsBytes([]);
  }

  lemma Unread(st: State)
    requires Faithful(st) && !HasObjects(st.rules)
    ensures ReplayFromLog(st) == None
  {
  }

  // ---------- a torn log

  /** `part` does the first operations of `ops`, perhaps the last of them, a bulk
      load, for its first items only. */
  ghost predicate Begins(part: seq<Op>, ops: seq<Op>)
  {
    part == [] ||
    (ops != [] && ((part[0] == ops[0] && Begins(part[1..], ops[1..])) ||
                   (|part| == 1 && part[0].OpBulk? && ops[0].OpBulk? && part[0].source == ops[0].source && part[0].items <= ops[0].items)))
  }

  lemma {:induction false} BeginsClean(part: seq<Op>, ops: seq<Op>)
    requires Begins(part, ops) && CleanOps(ops)
    ensures CleanOps(part)
    decreases |part|
  {
    if part != [] {
      assert ops[0] in ops && part == [part[0]] + part[1..];
      assert forall op :: op in ops[1..] ==> op in ops;
      if part[0] == ops[0] && Begins(part[1..], ops[1..]) {
        BeginsClean(part[1..], ops[1..]);
      } else {
        assert forall i :: i in part[0].items ==> i in ops[0].items;
      }
    }
  }

  /** `later` continues `earlier` by `k` records. */
  ghost predicate Continues(earlier: Option<seq<Record>>, later: Option<seq<Record>>, k: nat)
  {
    earlier.Some? && later.Some? && |later.value| == |earlier.value| + k && earlier.value <= later.value
  }

  /** A bulk load appends one record for each valid item that encodes, so the log
      after the first items of it can be found for any number of records. */
  lemma {:induction false} LoadAppends(st: State, items: seq<Item>, source: Str) returns (n: nat)
    requires st.log.Some?
    ensures Continues(st.log, Load(st, items, source).log, n)
    decreases |items|
  {
    hide EncodeBelief, ValidBelief, ItemBelief;
    if items == [] {
      n := 0;
    } else {
      var b := ItemBelief(items[0], source);
      FactFits(b);
      if !ValidBelief(b) {
        n := LoadAppends(st, items[1..], source);
      } else if EncodeBelief(b).None? {
        n := LoadAppends(IngestNoLog(st, b).(log := st.log), items[1..], source);
      } else {
        var log := Appended(st.log, FACT_ADDED, EncodeBelief(b)).value;
        var k := LoadAppends(IngestNoLog(st, b).(log := log), items[1..], source);
        n := k + 1;
      }
    }
  }

  lemma {:induction false} LoadSplits(st: State, items: seq<Item>, source: Str, m: nat, n: nat) returns (j: nat)
    requires st.log.Some?
    requires Continues(st.log, Load(st, items, source).log, n) && m <= n
    ensures j <= |items| && Continues(st.log, Load(st, items[..j], source).log, m)
    ensures Load(st, items[..j], source).log.value <= Load(st, items, source).log.value
    decreases |items|
  {
    hide EncodeBelief, ValidBelief, ItemBelief;
    if m == 0 {
      j := 0;
      assert items[..0] == [];
    } else {
      var b := ItemBelief(items[0], source);
      FactFits(b);
      if !ValidBelief(b) {
        var k := LoadSplits(st, items[1..], source, m, n);
        j := k + 1;
      } else if EncodeBelief(b).None? {
        var k := LoadSplits(IngestNoLog(st, b).(log := st.log), items[1..], source, m, n);
        j := k + 1;
      } else {
        var log := Appended(st.log, FACT_ADDED, EncodeBelief(b)).value;
        var next := IngestNoLog(st, b).(log := log);
        var more := LoadAppends(next, items[1..], source);
        var k := LoadSplits(next, items[1..], source, m - 1, n - 1);
        j := k + 1;
      }
      assert items[..j][0] == items[0] && items[..j][1..] == items[1..][..j - 1];
    }
  }

  lemma StepLog(st: State, op: Op)
    requires Invariant(st) && CleanOp(op) && Step(st, op).Some?
    ensures Before(st, op).Some? && Step(st, op).value.log == Before(st, op).value.log
  {
    hide Step, Before, Invariant, CleanOp, ApplyRules, Sound;
    StepIs(st, op);
    BeforeInvariant(st, op);
    assert Sound(Before(st, op).value) by { InvariantSound(Before(st, op).value); }
    ApplyRulesSound(Before(st, op).value, CapOf(op));
  }

  lemma InvariantSound(st: State)
    requires Invariant(st)
    ensures Sound(st)
  {
  }

  /** An operation only appends; all but a bulk load append at most one record. */
  lemma StepAppends(st: State, op: Op) returns (n: nat)
    requires Invariant(st) && CleanOp(op) && st.log.Some? && Step(st, op).Some?
    ensures Continues(st.log, Step(st, op).value.log, n) && (op.OpBulk? || n <= 1)
  {
    hide Step, Invariant, CleanOp, EncodeBelief, EncodeRule, EncodeResolution;
    StepLog(st, op);
    match op {
      case OpBulk(items, source) => n := LoadAppends(st, items, source);
      case OpReplay =>
        ReplayKeepsLog(NewEngine(st.log), st.log.value);
        n := 0;
      case _ => n := 1;
    }
  }

  /** The operations that lead to a log cut down to `m` more records. */
  lemma {:induction false} LogBegins(st: State, ops: seq<Op>, m: nat, n: nat) returns (part: seq<Op>)
    requires Invariant(st) && CleanOps(ops) && st.log.Some? && Run(st, ops).Some?
    requires Continues(st.log, Run(st, ops).value.log, n) && m <= n
    ensures Begins(part, ops) && Run(st, part).Some?
    ensures Continues(st.log, Run(st, part).value.log, m) && Run(st, part).value.log.value <= Run(st, ops).value.log.value
    decreases |ops|
  {
    hide Invariant, Step, CleanOp;
    if m == 0 {
      part := [];
    } else {
      var op, rest := ops[0], ops[1..];
      assert op in ops && forall o :: o in rest ==> o in ops;
      var next := Step(st, op).value;
      StepKeepsInvariant(st, op);
      var k := StepAppends(st, op);
      var more := RunAppends(next, rest);
      if k <= m {
        var tail := LogBegins(next, rest, m - k, n - k);
        part := [op] + tail;
        assert part[0] == op && part[1..] == tail;
      } else {
        part := BulkBegins(st, op, m, k);
        assert part == [part[0]];
        RunOne(st, part[0]);
      }
    }
  }

  lemma BulkBegins(st: State, op: Op, m: nat, n: nat) returns (part: seq<Op>)
    requires Invariant(st) && CleanOp(op) && st.log.Some? && Step(st, op).Some?
    requires op.OpBulk? && Continues(st.log, Step(st, op).value.log, n) && m <= n
    ensures |part| == 1 && part[0].OpBulk? && part[0].source == op.source && part[0].items <= op.items
    ensures Step(st, part[0]).Some? && Continues(st.log, Step(st, part[0]).value.log, m)
    ensures Step(st, part[0]).value.log.value <= Step(st, op).value.log.value
  {
    hide Invariant, ApplyRules, Load;
    StepLog(st, op);
    var j := LoadSplits(st, op.items, op.source, m, n);
    var first := OpBulk(op.items[..j], op.source);
    assert forall i :: i in op.items[..j] ==> i in op.items;
    part := [first];
    StepLog(st, first);
  }

  lemma {:induction false} RunAppends(st: State, ops: seq<Op>) returns (n: nat)
    requires Invariant(st) && CleanOps(ops) && st.log.Some? && Run(st, ops).Some?
    ensures Continues(st.log, Run(st, ops).value.log, n)
    decreases |ops|
  {
    hide Invariant, Step, CleanOp;
    if ops == [] {
      n := 0;
    } else {
      assert ops[0] in ops && forall op :: op in ops[1..] ==> op in ops;
      StepKeepsInvariant(st, ops[0]);
      var k := StepAppends(st, ops[0]);
      var more := RunAppends(Step(st, ops[0]).value, ops[1..]);
      n := k + more;
    }
  }

  /** The engine over the records that a file delivers. */
  ghost function Reopened(crc: Checksum, file: Bytes): Option<State>
  {
    var (recs, stop) := Delivered(crc, file);
    if stop != EndOfLog then None else ReplayFromLog(NewEngine(Some(recs)))
  }

  /** Crash recovery, from bytes to truth: cut the log file of a run anywhere.
      The records that are whole are the log of its first operations, perhaps of
      a bulk load in part.  Replaying the file gives exactly the engine as these
      left it if their rules and beliefs could all be logged, and otherwise what
      replay gives of their log. */
  lemma TornLogRecovers(crc: Checksum, ops: seq<Op>, log: seq<Record>, n: nat) returns (m: nat, part: seq<Op>)
    requires CleanOps(ops)
    requires Run(NewEngine(Some([])), ops).Some? && Run(NewEngine(Some([])), ops).value.log == Some(log)
    requires n <= |Frames(crc, log)|
    requires forall p :: Begins(p, ops) && Run(NewEngine(Some([])), p).Some? ==>
               Bounded(ProgramOf(Run(NewEngine(Some([])), p).value), CAP)
    ensures m <= |log| && |Frames(crc, log[..m])| <= n && (m < |log| ==> n < |Frames(crc, log[..m + 1])|)
    ensures Begins(part, ops) && Run(NewEngine(Some([])), part).Some?
    ensures var st := Run(NewEngine(Some([])), part).value;
            && st.log == Some(log[..m]) && Reopened(crc, Frames(crc, log)[..n]) == ReplayFromLog(st)
            && (Reopened(crc, Frames(crc, log)[..n]).Some? <==> HasObjects(st.rules))
            && (Reopened(crc, Frames(crc, log)[..n]) == Some(st) <==> HasObjects(st.rules) && AllLogged(st))
  {
    hide Run, Bounded, ProgramOf, HasObjects, Frames, Faithful, CleanOp, Lfp, Delivered, ReplayFromLog, Begins;
    var start := NewEngine(Some([]));
    NewEngineInvariant(Some([]));
    NewLogFaithful();
    RunFaithful(start, ops);
    m := TornTail(crc, log, n);
    assert Continues(start.log, Some(log), |log|);
    part := LogBegins(start, ops, m, |log|);
    BeginsClean(part, ops);
    var st := Run(start, part).value;
    assert st.log.value == log[..m];
    ReplayRefinesTheRun(part);
    ReplaySeesTheLog(NewEngine(Some(log[..m])), st);
  }

  /** Replay looks at nothing but the log. */
  lemma ReplaySeesTheLog(s: State, t: State)
    requires s.log == t.log
    ensures ReplayFromLog(s) == ReplayFromLog(t)
  {
  }
}
