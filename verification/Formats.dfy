/** Keys and payloads byte by byte, and which operations fail, append to the log
    and keep their order, in terms of the fields alone. */
module Formats {
  import opened Order
  import opened Facts
  import opened Rules
  import opened Evaluator
  import opened Datalog
  import opened Codec
  import opened Wal
  import opened Machine

  // ---------- keys

  /** "from|pred|to" */
  lemma AtomKeyBytes(a: Atom)
    ensures AtomKey(a) == a.from + [124] + a.pred + [124] + a.to
  {
  }

  /** "rule;key;key": the rule's name or the head's key, then each premise's key. */
  lemma DerivationKeyBytes(rule: Str, head: Atom, p: Atom, q: Atom)
    ensures ProofKey(DerivationProof(rule, [])) == rule
    ensures ProofKey(DerivationProof(rule, [p])) == rule + [59] + AtomKey(p)
    ensures ProofKey(DerivationProof(rule, [p, q])) == rule + [59] + AtomKey(p) + [59] + AtomKey(q)
    ensures DerivationKey(Derivation(head, [p, q])) == AtomKey(head) + [59] + AtomKey(p) + [59] + AtomKey(q)
  {
    hide AtomKey;
    assert [p][..0] == [] && [p, q][..1] == [p];
    assert KeyTail([p]) == [] + ([59] + AtomKey(p));
    assert KeyTail([p, q]) == KeyTail([p]) + ([59] + AtomKey(q));
    assert rule + [] == rule;
    assert rule + ([59] + AtomKey(p)) == rule + [59] + AtomKey(p);
  }

  /** A rule writes its conclusion as a positive belief from "rule:" and its name,
      at time zero, and such sources are the derived ones. */
  lemma DerivedSource(head: Atom, name: Str, b: Belief)
    ensures DerivedBelief(head, name) == Belief(head, 1, [114, 117, 108, 101, 58] + name, 0)
    ensures IsDerived(b) <==> exists n: Str :: b.source == [114, 117, 108, 101, 58] + n
  {
    if IsDerived(b) { assert b.source == RULE_PREFIX + b.source[5..]; }
  }

  // ---------- payloads

  /** A length in two bytes, the lower first, and the bytes. */
  function Sized(s: Str): Bytes
    requires |s| <= 65535
  {
    [|s| % 256, |s| / 256] + s
  }

  predicate Short(p: Triple) { |p.from| <= 65535 && |p.pred| <= 65535 && |p.to| <= 65535 }

  function SizedTriple(p: Triple): Bytes
    requires Short(p)
  {
    Sized(p.from) + Sized(p.pred) + Sized(p.to)
  }

  function SizedTriples(ps: seq<Triple>): Bytes
    requires forall p :: p in ps ==> Short(p)
  {
    if ps == [] then [] else SizedTriple(ps[0]) + SizedTriples(ps[1..])
  }

  /** The number in eight bytes, the lowest first. */
  function LongNumber(t: Bytes): nat
    requires |t| == 8
  {
    t[0] + 0x100 * (t[1] + 0x100 * (t[2] + 0x100 * (t[3] + 0x100 * (t[4] + 0x100 * (t[5] + 0x100 * (t[6] + 0x100 * (t[7] as nat)))))))
  }

  lemma TwoBytes(n: nat)
    requires n <= 65535
    ensures LittleEndian(n, 2) == [n % 256, n / 256]
  {
    assert LittleEndian(n / 256, 1) == [n / 256] + LittleEndian(n / 256 / 256, 0);
  }

  lemma FieldIsSized(s: Str)
    requires |s| <= 65535
    ensures Field(s) == Sized(s)
  {
    TwoBytes(|s|);
  }

  lemma PatternIsSized(p: Triple)
    requires Short(p)
    ensures PatternBytes(p) == SizedTriple(p)
  {
    hide Field, Sized;
    FieldIsSized(p.from);
    FieldIsSized(p.pred);
    FieldIsSized(p.to);
    assert Sized(p.from) + (Sized(p.pred) + Sized(p.to)) == Sized(p.from) + Sized(p.pred) + Sized(p.to);
  }

  lemma {:induction false} PatternsAreSized(ps: seq<Triple>)
    requires forall p :: p in ps ==> Short(p)
    ensures PatternsBytes(ps) == SizedTriples(ps)
  {
    hide PatternBytes, SizedTriple, Short;
    if ps != [] {
      PatternIsSized(ps[0]);
      PatternsAreSized(ps[1..]);
    }
  }

  lemma LongIs(t: Bytes)
    requires |t| == 8
    ensures FromLittleEndian(t) == LongNumber(t)
  {
    var n7: nat := t[7];
    var n6: nat := t[6] + 0x100 * n7;
    var n5: nat := t[5] + 0x100 * n6;
    var n4: nat := t[4] + 0x100 * n5;
    var n3: nat := t[3] + 0x100 * n4;
    var n2: nat := t[2] + 0x100 * n3;
    var n1: nat := t[1] + 0x100 * n2;
    TailNumber(t, 8, 0);
    TailNumber(t, 7, n7);
    TailNumber(t, 6, n6);
    TailNumber(t, 5, n5);
    TailNumber(t, 4, n4);
    TailNumber(t, 3, n3);
    TailNumber(t, 2, n2);
    TailNumber(t, 1, n1);
    assert t[0..] == t;
  }

  lemma TailNumber(t: Bytes, k: nat, n: nat)
    requires k <= |t| && FromLittleEndian(t[k..]) == n
    ensures k > 0 ==> FromLittleEndian(t[k - 1..]) == t[k - 1] + 0x100 * n
  {
    if k > 0 { assert t[k - 1..][0] == t[k - 1] && t[k - 1..][1..] == t[k..]; }
  }

  /** The payload of a belief: subject, predicate, object, polarity, source, and
      the time in eight bytes of two's complement. */
  lemma BeliefLayout(b: Belief) returns (time: Bytes)
    ensures EncodeBelief(b).Some? <==> Short(b.atom) && |b.source| <= 65535
    ensures |time| == 8 && LongNumber(time) == if b.unixNano < 0 then b.unixNano + 0x1_0000_0000_0000_0000 else b.unixNano
    ensures EncodeBelief(b).Some? ==>
              EncodeBelief(b).value == SizedTriple(b.atom) + [b.polarity] + Sized(b.source) + time
  {
    hide Field, PatternBytes, SizedTriple, Sized, LongNumber, FromLittleEndian;
    time := NanoBytes(b.unixNano);
    Powers();
    LittleEndianDecodes(Unsigned(b.unixNano), 8);
    LongIs(time);
    if EncodeBelief(b).Some? {
      PatternIsSized(b.atom);
      FieldIsSized(b.source);
      assert EncodeBelief(b).value == SizedTriple(b.atom) + [b.polarity] + Sized(b.source) + time;
    }
  }

  predicate ShortRule(r: Rule)
  {
    |r.name| <= 65535 && |r.premises| <= 65535 && Short(r.conclusion) && forall p :: p in r.premises ==> Short(p)
  }

  /** The payload of a rule: name, number of premises in two bytes, premises, conclusion. */
  function RuleLayout(r: Rule): Bytes
    requires ShortRule(r)
  {
    Sized(r.name) + [|r.premises| % 256, |r.premises| / 256] + SizedTriples(r.premises) + SizedTriple(r.conclusion)
  }

  lemma RuleIsLaidOut(r: Rule)
    ensures EncodeRule(r) == if ShortRule(r) then Some(RuleLayout(r)) else None
  {
    hide Field, PatternBytes, SizedTriple, Sized, PatternsBytes, SizedTriples, LittleEndian;
    if ShortRule(r) {
      FieldIsSized(r.name);
      TwoBytes(|r.premises|);
      PatternsAreSized(r.premises);
      PatternIsSized(r.conclusion);
      assert RuleBytes(r) == RuleLayout(r);
    }
  }

  // ---------- which operations fail

  predicate NamedAtom(a: Atom) { a.from != [] && a.pred != [] && a.to != [] }

  /** Replaying this record is an error: a belief, a resolution or a rule that
      cannot be decoded, or a decoded belief or resolution that is not valid. */
  ghost predicate BadRecord(rec: Record)
  {
    if rec.kind == 1 || rec.kind == 2 then
      match DecodeBelief(rec.payload)
      case None => true
      case Some(b) => !NamedAtom(b.atom) || b.source == [] || b.polarity > 1
    else rec.kind == 3 && DecodeRule(rec.payload).None?
  }

  /** Exactly when an operation returns an error.  A rule's payload can be longer
      than the log takes only in 4 GiB. */
  ghost predicate Fails(st: State, op: Op)
  {
    match op
    case OpIngest(b) =>
      || !NamedAtom(b.atom) || b.source == [] || b.polarity > 1
      || (st.log.Some? && !(Short(b.atom) && |b.source| <= 65535))
    case OpResolve(r) =>
      || !NamedAtom(r.atom) || r.source == [] || r.polarity > 1
      || (st.log.Some? && !(Short(r.atom) && |r.source| <= 65535))
    case OpAddRule(r) =>
      r.name == [] || r.premises == [] || (st.log.Some? && !(ShortRule(r) && |RuleLayout(r)| <= 0xffff_ffff))
    case OpReplay => st.log.None? || exists i :: 0 <= i < |st.log.value| && BadRecord(st.log.value[i])
    case OpBulk(_, _) => false
  }

  lemma BeliefAppends(b: Belief, kind: EventType)
    requires kind != UNKNOWN
    ensures EncodeBelief(b).Some? <==> Short(b.atom) && |b.source| <= 65535
    ensures EncodeBelief(b).Some? ==> Appendable(Record(kind, EncodeBelief(b).value))
  {
  }

  lemma RecordFails(st: State, rec: Record)
    ensures ReplayRecord(st, rec).None? <==> BadRecord(rec)
  {
    hide DecodeBelief, DecodeRule;
  }

  lemma {:induction false} ReplayFails(st: State, recs: seq<Record>)
    ensures ReplayRecords(st, recs).None? <==> exists i :: 0 <= i < |recs| && BadRecord(recs[i])
    decreases |recs|
  {
    hide ReplayRecord, BadRecord;
    if recs != [] {
      RecordFails(st, recs[0]);
      match ReplayRecord(st, recs[0]) {
        case None =>
        case Some(next) =>
          ReplayFails(next, recs[1..]);
          if i :| 0 <= i < |recs| && BadRecord(recs[i]) {
            assert i > 0 && recs[1..][i - 1] == recs[i];
          }
      }
    }
  }

  /** A failing replay has read just the records before the first bad one. */
  lemma {:induction false} ReadsUpToTheFirstBad(st: State, recs: seq<Record>) returns (k: nat)
    requires ReplayRecords(st, recs).None?
    ensures k < |recs| && BadRecord(recs[k]) && forall i :: 0 <= i < k ==> !BadRecord(recs[i])
    ensures ReplayRecords(st, recs[..k]) == Some(ReadSoFar(st, recs))
    decreases |recs|
  {
    hide ReplayRecord, BadRecord;
    RecordFails(st, recs[0]);
    if ReplayRecord(st, recs[0]).None? {
      k := 0;
    } else {
      var j := ReadsUpToTheFirstBad(ReplayRecord(st, recs[0]).value, recs[1..]);
      k := j + 1;
      assert recs[..k][0] == recs[0] && recs[..k][1..] == recs[1..][..j];
      assert forall i :: 0 < i < k ==> recs[i] == recs[1..][i - 1];
    }
  }

  lemma FailsExactly(st: State, op: Op)
    ensures Step(st, op).None? <==> Fails(st, op)
  {
    hide ApplyRules, Recompute, EncodeBelief, EncodeRule, ReplayRecords, BadRecord, Load, IngestNoLog, Short, RuleLayout;
    match op {
      case OpIngest(b) => BeliefAppends(b, FACT_ADDED);
      case OpResolve(r) => BeliefAppends(AsBelief(r), RESOLUTION_SET);
      case OpAddRule(r) => RuleIsLaidOut(r);
      case OpReplay => if st.log.Some? { ReplayFails(NewEngine(st.log), st.log.value); }
      case OpBulk(_, _) =>
    }
  }

  // ---------- what a successful operation appends and keeps in order

  /** The records of a bulk load: the valid items that can be written, in order. */
  ghost function ItemRecords(items: seq<Item>, source: Str): seq<Record>
    decreases |items|
  {
    if items == [] then [] else
      var b := Belief(items[0].atom, items[0].polarity, source, 0);
      (if NamedAtom(b.atom) && b.source != [] && b.polarity <= 1 && EncodeBelief(b).Some? then [Record(1, EncodeBelief(b).value)]
       else [])
      + ItemRecords(items[1..], source)
  }

  /** The records that a successful operation adds to an open log. */
  ghost function RecordsOf(op: Op): seq<Record>
    requires op.OpIngest? ==> EncodeBelief(op.b).Some?
    requires op.OpResolve? ==> EncodeResolution(op.res).Some?
    requires op.OpAddRule? ==> EncodeRule(op.r).Some?
  {
    match op
    case OpIngest(b) => [Record(1, EncodeBelief(b).value)]
    case OpResolve(r) => [Record(2, EncodeResolution(r).value)]
    case OpAddRule(r) => [Record(3, EncodeRule(r).value)]
    case OpReplay => []
    case OpBulk(items, source) => ItemRecords(items, source)
  }

  ghost function RuleIn(rec: Record): seq<Rule>
  {
    if rec.kind == 3 && DecodeRule(rec.payload).Some? then [DecodeRule(rec.payload).value] else []
  }

  /** The rules in a log, in its order. */
  ghost function RulesIn(recs: seq<Record>): seq<Rule>
  {
    if recs == [] then [] else RuleIn(recs[0]) + RulesIn(recs[1..])
  }

  ghost function ResolvedIn(m: map<Atom, Resolution>, rec: Record): map<Atom, Resolution>
  {
    var b := DecodeBelief(rec.payload);
    if rec.kind == 2 && b.Some? then
      m[b.value.atom := Resolution(b.value.atom, b.value.polarity, b.value.source, b.value.unixNano)]
    else m
  }

  /** The resolutions in a log, later ones over earlier ones. */
  ghost function ResolutionsIn(m: map<Atom, Resolution>, recs: seq<Record>): map<Atom, Resolution>
    decreases |recs|
  {
    if recs == [] then m else ResolutionsIn(ResolvedIn(m, recs[0]), recs[1..])
  }

  ghost predicate SameTelling(s: State, t: State) { t.rules == s.rules && t.resolutions == s.resolutions && t.log == s.log }

  lemma {:induction false} EmittingTellsNothing(p: Progress, rule: Str, ds: seq<Derivation>)
    ensures SameTelling(p.st, EmitAll(p, rule, ds).st)
    decreases |ds|
  {
    if ds != [] {
      var q := Turn(p, rule, ds[0]);
      assert SameTelling(p.st, q.st);
      EmittingTellsNothing(q, rule, ds[1..]);
    }
  }

  lemma {:induction false} RoundTellsNothing(p: Progress, rules: seq<Rule>, edges: seq<Atom>)
    ensures SameTelling(p.st, Round(p, rules, edges).st)
    decreases |rules|
  {
    hide EmitAll, EvaluatedIndexed;
    if rules != [] {
      var ds := EvaluatedIndexed(rules[0], edges, IndexOf(edges), p.remaining);
      EmittingTellsNothing(p, rules[0].name, ds);
      RoundTellsNothing(EmitAll(p, rules[0].name, ds), rules[1..], edges);
    }
  }

  lemma {:induction false} SaturatingTellsNothing(st: State, cap: int)
    ensures SameTelling(st, ApplyRules(st, cap))
    decreases cap
  {
    hide Round;
    if cap > 0 {
      RoundTellsNothing(Progress(st, cap, 0), st.rules, EdgesOf(st));
      var q := FullRound(st, cap);
      if q.remaining > 0 && q.added > 0 { SaturatingTellsNothing(q.st, q.remaining); }
    }
  }

  /** The state after the first item. */
  ghost function AfterItem(st: State, item: Item, source: Str): State
  {
    var b := ItemBelief(item, source);
    var log := Appended(st.log, FACT_ADDED, EncodeBelief(b));
    if ValidBelief(b) then IngestNoLog(st, b).(log := if log.None? then st.log else log.value) else st
  }

  lemma {:induction false} LoadAppends(st: State, items: seq<Item>, source: Str)
    ensures var t := Load(st, items, source);
            && t.rules == st.rules && t.resolutions == st.resolutions
            && t.log == if st.log.None? then None else Some(st.log.value + ItemRecords(items, source))
    decreases |items|
  {
    hide EncodeBelief, Short;
    if items == [] {
      assert st.log.Some? ==> st.log.value + [] == st.log.value;
    } else {
      var b := ItemBelief(items[0], source);
      BeliefAppends(b, FACT_ADDED);
      var next := AfterItem(st, items[0], source);
      LoadAppends(next, items[1..], source);
      assert Load(st, items, source) == Load(next, items[1..], source);
      if st.log.Some? {
        assert next.log.value + ItemRecords(items[1..], source) == st.log.value + ItemRecords(items, source);
      }
    }
  }

  lemma RecordReads(st: State, rec: Record)
    requires ReplayRecord(st, rec).Some?
    ensures var t := ReplayRecord(st, rec).value;
            t.rules == st.rules + RuleIn(rec) && t.resolutions == ResolvedIn(st.resolutions, rec) && t.log == st.log
  {
    hide DecodeBelief, DecodeRule, ValidBelief, ValidResolution;
    assert st.rules + [] == st.rules;
  }

  lemma {:induction false} ReplayReads(st: State, recs: seq<Record>)
    requires ReplayRecords(st, recs).Some?
    ensures var t := ReplayRecords(st, recs).value;
            t.rules == st.rules + RulesIn(recs) && t.resolutions == ResolutionsIn(st.resolutions, recs) && t.log == st.log
    decreases |recs|
  {
    hide ReplayRecord, RuleIn, ResolvedIn;
    if recs == [] {
      assert st.rules + [] == st.rules;
    } else {
      RecordReads(st, recs[0]);
      var next := ReplayRecord(st, recs[0]).value;
      ReplayReads(next, recs[1..]);
      assert st.rules + RuleIn(recs[0]) + RulesIn(recs[1..]) == st.rules + RulesIn(recs);
    }
  }

  /** A successful operation appends just its records to an open log, adds its rule
      after the others and replaces the resolution of its atom; a replay reads both
      from the log and leaves the log alone. */
  lemma StepTellsInOrder(st: State, op: Op)
    requires Step(st, op).Some?
    ensures st.log.None? ==> Step(st, op).value.log.None?
    ensures st.log.Some? ==>
              && (op.OpIngest? ==> EncodeBelief(op.b).Some?) && (op.OpResolve? ==> EncodeResolution(op.res).Some?)
              && (op.OpAddRule? ==> EncodeRule(op.r).Some?)
              && Step(st, op).value.log == Some(st.log.value + RecordsOf(op))
    ensures Step(st, op).value.rules ==
            if op.OpAddRule? then st.rules + [op.r] else if op.OpReplay? then RulesIn(st.log.value) else st.rules
    ensures Step(st, op).value.resolutions ==
            if op.OpResolve? then st.resolutions[op.res.atom := op.res]
            else if op.OpReplay? then ResolutionsIn(map[], st.log.value) else st.resolutions
  {
    hide ApplyRules, EncodeBelief, EncodeRule, ReplayRecords, Load, ItemRecords, RulesIn, ResolutionsIn, ValidBelief;
    match op {
      case OpIngest(b) =>
        var log := Appended(st.log, FACT_ADDED, EncodeBelief(b)).value;
        SaturatingTellsNothing(IngestNoLog(st, b).(log := log), CAP);
      case OpAddRule(r) =>
        var log := Appended(st.log, RULE_ADDED, EncodeRule(r)).value;
        SaturatingTellsNothing(st.(rules := st.rules + [r], log := log), CAP);
      case OpResolve(r) =>
        var log := Appended(st.log, RESOLUTION_SET, EncodeResolution(r)).value;
        SaturatingTellsNothing(Stripped(st.(resolutions := st.resolutions[r.atom := r], log := log)), CAP);
      case OpReplay =>
        var read := ReplayRecords(NewEngine(st.log), st.log.value).value;
        ReplayReads(NewEngine(st.log), st.log.value);
        SaturatingTellsNothing(Stripped(read), CAP);
        assert [] + RulesIn(st.log.value) == RulesIn(st.log.value);
        assert st.log.value + [] == st.log.value;
      case OpBulk(items, source) =>
        LoadAppends(st, items, source);
        SaturatingTellsNothing(Load(st, items, source), BULK_CAP);
    }
  }

  // ---------- what a successful operation saturates

  /** Sources that callers may use. */
  predicate CallersSource(s: Str) { |s| < 5 || s[..5] != [114, 117, 108, 101, 58] }

  ghost predicate MayEnter(resolutions: map<Atom, Resolution>, a: Atom)
  {
    a in resolutions ==> resolutions[a].polarity != 0
  }

  /** The positive beliefs' atoms, without those resolved false. */
  ghost function Entering(beliefs: set<Belief>, resolutions: map<Atom, Resolution>): set<Atom>
  {
    set b | b in beliefs && b.polarity == 1 && MayEnter(resolutions, b.atom) :: b.atom
  }

  ghost function CallersOf(beliefs: set<Belief>): set<Belief> { set b | b in beliefs && CallersSource(b.source) }

  ghost function BeliefIn(rec: Record): set<Belief>
  {
    if rec.kind == 1 && DecodeBelief(rec.payload).Some? then {DecodeBelief(rec.payload).value} else {}
  }

  ghost function BeliefsIn(recs: seq<Record>): set<Belief>
  {
    if recs == [] then {} else BeliefIn(recs[0]) + BeliefsIn(recs[1..])
  }

  ghost function ItemBeliefs(items: seq<Item>, source: Str): set<Belief>
  {
    set i | i in items && NamedAtom(i.atom) && source != [] && i.polarity <= 1 :: Belief(i.atom, i.polarity, source, 0)
  }

  lemma SourceIsCallers(b: Belief)
    ensures CallersSource(b.source) <==> !IsDerived(b)
  {
  }

  lemma BaseIsCallers(beliefs: set<Belief>)
    ensures BaseBeliefs(beliefs) == CallersOf(beliefs)
  {
    forall b: Belief ensures CallersSource(b.source) <==> !IsDerived(b) { SourceIsCallers(b); }
  }

  lemma StrippedIs(st: State)
    ensures var x := Stripped(st);
            && x.beliefs == CallersOf(st.beliefs) && x.graph == Entering(CallersOf(st.beliefs), st.resolutions)
            && x.derivations == map[]
  {
    hide CallersOf;
    BaseIsCallers(st.beliefs);
    assert forall a :: ResolvedFalse(st.resolutions, a) <==> !MayEnter(st.resolutions, a);
  }

  lemma RecordBelieved(st: State, rec: Record)
    requires ReplayRecord(st, rec).Some?
    ensures ReplayRecord(st, rec).value.beliefs == st.beliefs + BeliefIn(rec)
  {
    hide DecodeBelief, DecodeRule;
    assert st.beliefs + {} == st.beliefs;
  }

  lemma {:induction false} ReplayBelieves(st: State, recs: seq<Record>)
    requires ReplayRecords(st, recs).Some?
    ensures ReplayRecords(st, recs).value.beliefs == st.beliefs + BeliefsIn(recs)
    decreases |recs|
  {
    hide ReplayRecord, BeliefIn;
    if recs != [] {
      RecordBelieved(st, recs[0]);
      ReplayBelieves(ReplayRecord(st, recs[0]).value, recs[1..]);
    }
  }

  /** The belief that an item brings in, if it is valid. */
  ghost function BeliefOf(item: Item, source: Str): set<Belief>
  {
    if NamedAtom(item.atom) && source != [] && item.polarity <= 1 then {Belief(item.atom, item.polarity, source, 0)} else {}
  }

  lemma ItemBelieved(st: State, item: Item, source: Str)
    ensures var x := AfterItem(st, item, source);
            && x.beliefs == st.beliefs + BeliefOf(item, source) && x.derivations == st.derivations
            && x.resolutions == st.resolutions && x.graph == st.graph + Entering(BeliefOf(item, source), st.resolutions)
  {
    hide EncodeBelief, Appendable;
    var b := ItemBelief(item, source);
    EnteringOne(b, st.resolutions);
    assert st.beliefs + {} == st.beliefs && st.graph + {} == st.graph && Entering({}, st.resolutions) == {};
  }

  lemma FirstItem(items: seq<Item>, source: Str)
    requires items != []
    ensures ItemBeliefs(items, source) == BeliefOf(items[0], source) + ItemBeliefs(items[1..], source)
  {
    assert forall i :: i in items <==> i == items[0] || i in items[1..];
  }

  lemma {:induction false} LoadBelieves(st: State, items: seq<Item>, source: Str)
    ensures var x := Load(st, items, source);
            && x.beliefs == st.beliefs + ItemBeliefs(items, source) && x.derivations == st.derivations
            && x.graph == st.graph + Entering(ItemBeliefs(items, source), st.resolutions)
    decreases |items|
  {
    hide EncodeBelief, BeliefOf, Appended, IngestNoLog, ValidBelief;
    if items == [] {
      assert ItemBeliefs(items, source) == {} && Entering({}, st.resolutions) == {};
    } else {
      var next := AfterItem(st, items[0], source);
      assert Load(st, items, source) == Load(next, items[1..], source);
      hide AfterItem, Load, ItemBeliefs, Entering;
      ItemBelieved(st, items[0], source);
      LoadBelieves(next, items[1..], source);
      FirstItem(items, source);
      EnteringMore(BeliefOf(items[0], source), ItemBeliefs(items[1..], source), st.resolutions);
    }
  }

  lemma EnteringMore(s: set<Belief>, t: set<Belief>, resolutions: map<Atom, Resolution>)
    ensures Entering(s + t, resolutions) == Entering(s, resolutions) + Entering(t, resolutions)
  {
    hide MayEnter;
  }

  /** What a successful operation hands to the rules, and their limit.  An ingest
      and a bulk load add to what there is, a rule leaves it, and a resolution and
      a replay start again from the callers' beliefs, with no derivation left. */
  lemma StepSaturatesThis(st: State, op: Op) returns (x: State)
    requires Step(st, op).Some?
    ensures Step(st, op).value == ApplyRules(x, if op.OpBulk? then 10000 else 1000)
    ensures x.derivations == if op.OpResolve? || op.OpReplay? then map[] else st.derivations
    ensures x.beliefs ==
            match op
            case OpIngest(b) => st.beliefs + {b}
            case OpBulk(items, source) => st.beliefs + ItemBeliefs(items, source)
            case OpAddRule(_) => st.beliefs
            case OpResolve(_) => CallersOf(st.beliefs)
            case OpReplay => CallersOf(BeliefsIn(st.log.value))
    ensures x.graph ==
            match op
            case OpIngest(b) => st.graph + Entering({b}, st.resolutions)
            case OpBulk(items, source) => st.graph + Entering(ItemBeliefs(items, source), st.resolutions)
            case OpAddRule(_) => st.graph
            case OpResolve(r) => Entering(CallersOf(st.beliefs), st.resolutions[r.atom := r])
            case OpReplay => Entering(CallersOf(BeliefsIn(st.log.value)), ResolutionsIn(map[], st.log.value))
  {
    hide ApplyRules, EncodeBelief, EncodeRule, ReplayRecords, Load, ItemBeliefs, ResolutionsIn, BeliefsIn, CallersOf, Entering;
    match op {
      case OpIngest(b) =>
        x := IngestNoLog(st, b).(log := Appended(st.log, FACT_ADDED, EncodeBelief(b)).value);
        EnteringOne(b, st.resolutions);
      case OpAddRule(r) =>
        x := st.(rules := st.rules + [r], log := Appended(st.log, RULE_ADDED, EncodeRule(r)).value);
      case OpResolve(r) =>
        var log := Appended(st.log, RESOLUTION_SET, EncodeResolution(r)).value;
        x := Stripped(st.(resolutions := st.resolutions[r.atom := r], log := log));
        StrippedIs(st.(resolutions := st.resolutions[r.atom := r], log := log));
      case OpReplay =>
        var read := ReplayRecords(NewEngine(st.log), st.log.value).value;
        x := Stripped(read);
        StrippedIs(read);
        ReplayBelieves(NewEngine(st.log), st.log.value);
        ReplayReads(NewEngine(st.log), st.log.value);
        assert {} + BeliefsIn(st.log.value) == BeliefsIn(st.log.value);
      case OpBulk(items, source) =>
        x := Load(st, items, source);
        LoadBelieves(st, items, source);
    }
  }

  lemma EnteringOne(b: Belief, resolutions: map<Atom, Resolution>)
    ensures Entering({b}, resolutions) == if b.polarity == 1 && !ResolvedFalse(resolutions, b.atom) then {b.atom} else {}
  {
  }
}
