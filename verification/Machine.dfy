/** The engine as a state machine on values (pkg/engine/engine.go, rules.go,
    derivations.go, bulk.go).  The class in Runtime.dfy is proved to take these
    very steps; the theorems are about them. */
module Machine {
  import opened Order
  import opened Facts
  import opened Rules
  import opened Evaluator
  import opened Datalog
  import opened Codec
  import opened Wal

  datatype DerivationProof = DerivationProof(rule: Str, premises: seq<Atom>)

  type Derivations = map<Atom, seq<DerivationProof>>

  /** `derivationKey` (proof.go:25-33). */
  function ProofKey(d: DerivationProof): Str { d.rule + KeyTail(d.premises) }

  function AtomKeys(atoms: seq<Atom>): Key
  {
    if atoms == [] then [] else [AtomKey(atoms[0])] + AtomKeys(atoms[1..])
  }

  /** The comparator of `sortDerivations` (proof.go:35-51). */
  function ProofOrder(d: DerivationProof): Key { [d.rule] + AtomKeys(d.premises) }

  /** By rule name, then by the keys of the premises, a shorter list first. */
  ghost predicate ProofBefore(d: DerivationProof, e: DerivationProof)
  {
    ComesBefore(d.rule, e.rule) || (d.rule == e.rule && KeysBefore(d.premises, e.premises))
  }

  ghost predicate KeysBefore(s: seq<Atom>, t: seq<Atom>)
    decreases |s|
  {
    t != [] &&
    (s == [] || ComesBefore(AtomKey(s[0]), AtomKey(t[0])) || (AtomKey(s[0]) == AtomKey(t[0]) && KeysBefore(s[1..], t[1..])))
  }

  lemma {:induction false} AtomKeysMean(s: seq<Atom>, t: seq<Atom>)
    ensures KeyLess(AtomKeys(s), AtomKeys(t)) <==> KeysBefore(s, t)
    decreases |s|
  {
    hide AtomKey, ComesBefore;
    if s != [] && t != [] {
      AtomKeysMean(s[1..], t[1..]);
      KeyLessCons(AtomKey(s[0]), AtomKeys(s[1..]), AtomKey(t[0]), AtomKeys(t[1..]));
    }
  }

  lemma ProofOrderMeans(d: DerivationProof, e: DerivationProof)
    ensures KeyLess(ProofOrder(d), ProofOrder(e)) <==> ProofBefore(d, e)
  {
    AtomKeysMean(d.premises, e.premises);
    KeyLessCons(d.rule, AtomKeys(d.premises), e.rule, AtomKeys(e.premises));
  }

  datatype State = State(
    beliefs: set<Belief>,
    resolutions: map<Atom, Resolution>,
    rules: seq<Rule>,
    graph: set<Atom>,
    derivations: Derivations,
    log: Option<seq<Record>>)

  ghost function NewEngine(log: Option<seq<Record>>): State { State({}, map[], [], {}, map[], log) }

  /** `resolvedFalse` (engine.go:115-118). */
  predicate ResolvedFalse(resolutions: map<Atom, Resolution>, a: Atom)
  {
    a in resolutions && resolutions[a].polarity == NEGATIVE
  }

  predicate IsDerived(b: Belief) { RULE_PREFIX <= b.source }

  function ProofsOf(ds: Derivations, a: Atom): seq<DerivationProof> { if a in ds then ds[a] else [] }

  /** The scan for a derivation with the same key. */
  predicate HasKey(cur: seq<DerivationProof>, key: Str)
  {
    cur != [] && (ProofKey(cur[0]) == key || HasKey(cur[1..], key))
  }

  /** `addDerivation` (derivations.go:5-18). */
  function AddDerivation(ds: Derivations, a: Atom, d: DerivationProof): Derivations
  {
    if HasKey(ProofsOf(ds, a), ProofKey(d)) then ds else ds[a := Sort(ProofsOf(ds, a) + [d], ProofOrder)]
  }

  /** `ingestNoLog` (engine.go:123-133); an invalid belief is an error that changes nothing. */
  function IngestNoLog(st: State, b: Belief): State
  {
    if !ValidBelief(b) then st else
      st.(beliefs := st.beliefs + {b},
          graph := if b.polarity == POSITIVE && !ResolvedFalse(st.resolutions, b.atom) then st.graph + {b.atom}
                   else st.graph)
  }

  /** One derivation of one rule (rules.go:59-69). */
  function Emit(st: State, rule: Str, d: Derivation): State
  {
    IngestNoLog(
      st.(derivations := AddDerivation(st.derivations, d.head, DerivationProof(rule, d.premises))),
      DerivedBelief(d.head, rule))
  }

  /** The state and the two counters of `ApplyRules`. */
  datatype Progress = Progress(st: State, remaining: int, added: nat)

  /** The derivation writes a belief that is not in the store yet. */
  predicate Writes(st: State, rule: Str, d: Derivation)
  {
    ValidAtom(d.head) && DerivedBelief(d.head, rule) !in st.beliefs
  }

  /** That is when `Count` grows, which the loop compares (rules.go:68-71). */
  lemma CountGrowsWhenWritten(st: State, rule: Str, d: Derivation)
    ensures Writes(st, rule, d) <==> |Emit(st, rule, d).beliefs| > |st.beliefs|
    ensures !Writes(st, rule, d) ==> Emit(st, rule, d).beliefs == st.beliefs
  {
    var b := DerivedBelief(d.head, rule);
    assert RULE_PREFIX + rule != [];
    if b in st.beliefs {
      assert st.beliefs + {b} == st.beliefs;
    } else {
      assert |st.beliefs + {b}| == |st.beliefs| + 1;
    }
  }

  /** One derivation: a belief that is written uses up one of the remaining. */
  function Turn(p: Progress, rule: Str, d: Derivation): (q: Progress)
    ensures q.added >= p.added && q.remaining == p.remaining - (q.added - p.added)
  {
    var k := if Writes(p.st, rule, d) then 1 else 0;
    Progress(Emit(p.st, rule, d), p.remaining - k, p.added + k)
  }

  /** The loop over one rule's derivations (rules.go:58-78), entered with some
      remaining; it returns early with none. */
  function EmitAll(p: Progress, rule: Str, ds: seq<Derivation>): (q: Progress)
    ensures q.added >= p.added && q.remaining == p.remaining - (q.added - p.added)
    decreases |ds|
  {
    if ds == [] then p else
      var q := Turn(p, rule, ds[0]);
      if q.remaining <= 0 then q else EmitAll(q, rule, ds[1..])
  }

  /** The loop over the rules: all of them see the edges of the round's start. */
  ghost function Round(p: Progress, rules: seq<Rule>, edges: seq<Atom>): (q: Progress)
    ensures q.added >= p.added && q.remaining == p.remaining - (q.added - p.added)
    decreases |rules|
  {
    if rules == [] then p else
      var q := EmitAll(p, rules[0].name, EvaluatedIndexed(rules[0], edges, IndexOf(edges), p.remaining));
      if q.remaining <= 0 then q else Round(q, rules[1..], edges)
  }

  ghost function EdgesOf(st: State): seq<Atom> { SortedListing(st.graph, AtomOrder) }

  ghost function FullRound(st: State, remaining: int): Progress
  {
    Round(Progress(st, remaining, 0), st.rules, EdgesOf(st))
  }

  /** `ApplyRules` (rules.go:43-84). */
  ghost function ApplyRules(st: State, cap: int): State
    decreases cap
  {
    if cap <= 0 then st else
      var q := FullRound(st, cap);
      if q.remaining <= 0 || q.added == 0 then q.st else ApplyRules(q.st, q.remaining)
  }

  /** How many rounds that takes. */
  ghost function Rounds(st: State, cap: int): nat
    decreases cap
  {
    if cap <= 0 then 0 else
      var q := FullRound(st, cap);
      if q.remaining <= 0 || q.added == 0 then 1 else 1 + Rounds(q.st, q.remaining)
  }

  ghost function BaseBeliefs(beliefs: set<Belief>): set<Belief> { set b | b in beliefs && !IsDerived(b) }

  ghost function Projected(beliefs: set<Belief>, resolutions: map<Atom, Resolution>): set<Atom>
  {
    set b | b in beliefs && b.polarity == POSITIVE && !ResolvedFalse(resolutions, b.atom) :: b.atom
  }

  /** What `recompute` keeps before it applies the rules again (engine.go:141-165). */
  ghost function Stripped(st: State): State
  {
    var base := BaseBeliefs(st.beliefs);
    st.(beliefs := base, graph := Projected(base, st.resolutions), derivations := map[])
  }

  const CAP := 1000
  const BULK_CAP := 10000

  /** `recompute` (engine.go:140-167). */
  ghost function Recompute(st: State): State { ApplyRules(Stripped(st), CAP) }

  /** The log after one append, or an error. */
  function Appended(log: Option<seq<Record>>, kind: EventType, payload: Option<Bytes>): Option<Option<seq<Record>>>
  {
    if log.None? then Some(None)
    else if payload.None? || !Appendable(Record(kind, payload.value)) then None
    else Some(Some(log.value + [Record(kind, payload.value)]))
  }

  /** `Ingest` (engine.go:169-194). */
  ghost function Ingest(st: State, b: Belief): Option<State>
  {
    if !ValidBelief(b) then None else
      match Appended(st.log, FACT_ADDED, EncodeBelief(b))
      case None => None
      case Some(log) => Some(ApplyRules(IngestNoLog(st, b).(log := log), CAP))
  }

  /** `AddRule` (rules.go:19-41). */
  ghost function AddRule(st: State, r: Rule): Option<State>
  {
    if r.name == [] || r.premises == [] then None else
      match Appended(st.log, RULE_ADDED, EncodeRule(r))
      case None => None
      case Some(log) => Some(ApplyRules(st.(rules := st.rules + [r], log := log), CAP))
  }

  /** `Resolve` (engine.go:196-217). */
  ghost function Resolve(st: State, r: Resolution): Option<State>
  {
    if !ValidResolution(r) then None else
      match Appended(st.log, RESOLUTION_SET, EncodeResolution(r))
      case None => None
      case Some(log) => Some(Recompute(st.(resolutions := st.resolutions[r.atom := r], log := log)))
  }

  /** The callback of `ReplayFromLog` (engine.go:232-257). */
  ghost function ReplayRecord(st: State, rec: Record): Option<State>
  {
    if rec.kind == FACT_ADDED then
      match DecodeBelief(rec.payload)
      case None => None
      case Some(b) => if ValidBelief(b) then Some(IngestNoLog(st, b)) else None
    else if rec.kind == RESOLUTION_SET then
      match DecodeResolution(rec.payload)
      case None => None
      case Some(r) => if ValidResolution(r) then Some(st.(resolutions := st.resolutions[r.atom := r])) else None
    else if rec.kind == RULE_ADDED then
      match DecodeRule(rec.payload)
      case None => None
      case Some(r) => Some(st.(rules := st.rules + [r]))
    else Some(st)
  }

  ghost function ReplayRecords(st: State, recs: seq<Record>): Option<State>
    decreases |recs|
  {
    if recs == [] then Some(st) else
      match ReplayRecord(st, recs[0])
      case None => None
      case Some(next) => ReplayRecords(next, recs[1..])
  }

  /** The state when all records are read, or the first that fails is reached:
      a record that fails changes nothing. */
  ghost function ReadSoFar(st: State, recs: seq<Record>): State
    decreases |recs|
  {
    if recs == [] || ReplayRecord(st, recs[0]).None? then st
    else ReadSoFar(ReplayRecord(st, recs[0]).value, recs[1..])
  }

  /** `ReplayFromLog` (engine.go:219-266). */
  ghost function ReplayFromLog(st: State): Option<State>
  {
    if st.log.None? then None else
      match ReplayRecords(NewEngine(st.log), st.log.value)
      case None => None
      case Some(read) => Some(Recompute(read))
  }

  /** One parsed triple of a bulk load. */
  datatype Item = Item(atom: Atom, polarity: Polarity)

  function ItemBelief(item: Item, source: Str): Belief { Belief(item.atom, item.polarity, source, 0) }

  /** The loop of a bulk load (bulk.go:167-196): an invalid triple is counted and
      skipped, a failing log append is ignored. */
  ghost function Load(st: State, items: seq<Item>, source: Str): State
    decreases |items|
  {
    if items == [] then st else
      var b := ItemBelief(items[0], source);
      if !ValidBelief(b) then Load(st, items[1..], source) else
        var log := Appended(st.log, FACT_ADDED, EncodeBelief(b));
        Load(IngestNoLog(st, b).(log := if log.None? then st.log else log.value), items[1..], source)
  }

  ghost function BulkIngest(st: State, items: seq<Item>, source: Str): State
  {
    ApplyRules(Load(st, items, source), BULK_CAP)
  }

  // ---------- what the engine answers

  datatype Truth = Unknown | True | False | Both

  datatype Proof =
    | ByResolution(source: Str)
    | Contradiction
    | Derived(proofs: seq<DerivationProof>)
    | ByBelief
    | NoEvidence

  ghost predicate Believed(beliefs: set<Belief>, a: Atom, pol: Polarity)
  {
    exists b :: b in beliefs && b.atom == a && b.polarity == pol
  }

  /** `Evaluate` (query.go:26-64). */
  ghost function Evaluate(st: State, a: Atom): (Truth, Proof)
  {
    if a in st.resolutions then
      (if st.resolutions[a].polarity == POSITIVE then True else False, ByResolution(st.resolutions[a].source))
    else
      var pos, neg := Believed(st.beliefs, a, POSITIVE), Believed(st.beliefs, a, NEGATIVE);
      if pos && neg then (Both, Contradiction)
      else if pos then
        if ProofsOf(st.derivations, a) != [] then (True, Derived(ProofsOf(st.derivations, a))) else (True, ByBelief)
      else if neg then (False, ByBelief)
      else (Unknown, NoEvidence)
  }

  // ---------- runs

  datatype Op =
    | OpIngest(b: Belief)
    | OpAddRule(r: Rule)
    | OpResolve(res: Resolution)
    | OpReplay
    | OpBulk(items: seq<Item>, source: Str)

  /** The state after an operation that returns no error. */
  ghost function Step(st: State, op: Op): Option<State>
  {
    match op
    case OpIngest(b) => Ingest(st, b)
    case OpAddRule(r) => AddRule(st, r)
    case OpResolve(r) => Resolve(st, r)
    case OpReplay => ReplayFromLog(st)
    case OpBulk(items, source) => Some(BulkIngest(st, items, source))
  }

  ghost function Run(st: State, ops: seq<Op>): Option<State>
    decreases |ops|
  {
    if ops == [] then Some(st) else
      match Step(st, ops[0])
      case None => None
      case Some(next) => Run(next, ops[1..])
  }
}
