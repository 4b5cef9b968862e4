/** The engine as the program runs it: a store, a graph and a log that its
    operations update in place (pkg/engine). */
module Runtime {
  import opened Order
  import opened Facts
  import opened Rules
  import opened Evaluator
  import opened Search
  import opened Datalog
  import opened Wal
  import opened BeliefStore
  import opened KnowledgeGraph
  import opened Compaction
  import M = Machine
  import IO = CodecIO
  import C = Codec
  import F = Formats

  type DerivationProof = M.DerivationProof

  /** What `Ingest` returns: an error, or maybe a contradiction. */
  datatype IngestResult = Failed | Ingested(contradiction: Option<Contradiction>)

  datatype BulkResult = BulkResult(total: nat, ingested: nat, contradictions: nat, errors: nat)

  /** The items that are not valid beliefs, by position. */
  ghost function InvalidItems(items: seq<M.Item>, source: Str): set<nat>
  {
    set i: nat | i < |items| && !(ValidAtom(items[i].atom) && source != [] && items[i].polarity <= 1)
  }

  /** The item is valid and contradicts what the state holds. */
  ghost predicate Contradicts(st: M.State, item: M.Item, source: Str)
  {
    var b := M.ItemBelief(item, source);
    ValidBelief(b) && ContradictionOf(st.beliefs, st.resolutions, b).Some?
  }

  /** The items that contradict what the state holds when their turn comes. */
  ghost function Contradicted(st: M.State, items: seq<M.Item>, source: Str): set<nat>
  {
    set i: nat | i < |items| && Contradicts(M.Load(st, items[..i], source), items[i], source)
  }

  class Engine {
    var beliefs: Store
    var graph: MemGraph
    var rules: seq<Rule>
    var derivations: M.Derivations
    var log: WAL?

    ghost predicate Valid()
      reads this, beliefs, graph, log
    {
      beliefs.Valid() && graph.Valid() && (log != null ==> log.Valid() && log.open)
    }

    ghost function LogView(): Option<seq<Record>>
      reads this, log
    {
      if log == null then None else Some(log.records)
    }

    /** The engine as a value. */
    ghost function View(): M.State
      reads this, beliefs, graph, log
    {
      M.State(beliefs.contents, beliefs.resolutionByAtom, rules, graph.edges, derivations, LogView())
    }

    /** `New` (engine.go:58-73), with or without a log. */
    constructor (log: WAL?)
      requires log != null ==> log.Valid() && log.open
      ensures Valid() && View() == M.NewEngine(LogView()) && this.log == log
      ensures fresh(beliefs) && fresh(graph)
    {
      this.beliefs := new Store();
      this.graph := new MemGraph();
      this.rules, this.derivations, this.log := [], map[], log;
    }

    /** `ingestNoLog` (engine.go:123-133). */
    method IngestNoLog(b: Belief) returns (r: Added)
      requires Valid()
      modifies beliefs, graph
      ensures Valid() && View() == M.IngestNoLog(old(View()), b)
      ensures r.Invalid? <==> !ValidBelief(b)
      ensures r.Accepted? ==> r.contradiction == ContradictionOf(old(View()).beliefs, old(View()).resolutions, b)
    {
      hide Represents, TriplesOf, Mirrored, OwedBy, Conflicts;
      r := beliefs.Add(b);
      if r.Invalid? {
        return;
      }
      if b.polarity == POSITIVE {
        var res := beliefs.GetResolution(b.atom);
        if !(res.Some? && res.value.polarity == NEGATIVE) {
          var ok := graph.AddFact(b.atom.from, b.atom.pred, b.atom.to);
          assert Triple(b.atom.from, b.atom.pred, b.atom.to) == b.atom;
        }
      }
    }

    /** `addDerivation` (derivations.go:5-18). */
    method AddDerivation(atom: Atom, d: DerivationProof)
      modifies this`derivations
      ensures derivations == M.AddDerivation(old(derivations), atom, d)
    {
      var cur := M.ProofsOf(derivations, atom);
      var k := M.ProofKey(d);
      var i := 0;
      while i < |cur|
        invariant i <= |cur| && M.HasKey(cur, k) == M.HasKey(cur[i..], k)
      {
        assert cur[i..][0] == cur[i] && cur[i..][1..] == cur[i + 1..];
        if M.ProofKey(cur[i]) == k {
          return;
        }
        i := i + 1;
      }
      cur := cur + [d];
      cur := Sort(cur, M.ProofOrder);
      derivations := derivations[atom := cur];
    }

    /** The body of the innermost loop of `ApplyRules` (rules.go:59-71). */
    method Emit(rule: Str, d: Derivation) returns (counted: bool)
      requires Valid()
      modifies this`derivations, beliefs, graph
      ensures Valid() && View() == M.Emit(old(View()), rule, d)
      ensures counted <==> M.Writes(old(View()), rule, d)
    {
      hide Represents, TriplesOf, Mirrored;
      M.CountGrowsWhenWritten(View(), rule, d);
      AddDerivation(d.head, M.DerivationProof(rule, d.premises));
      var before := beliefs.Count();
      var _ := IngestNoLog(DerivedBelief(d.head, rule));
      var after := beliefs.Count();
      counted := after > before;
    }

    /** One turn of the loop, with its counters (rules.go:58-78). */
    method Turn(rule: Str, derivs: seq<Derivation>, j: nat, have: int, soFar: nat, ghost end: M.Progress)
        returns (remaining: int, added: nat)
      requires Valid() && j < |derivs| && have > 0
      requires EndsAt(M.Progress(View(), have, soFar), rule, derivs, j, end)
      modifies this`derivations, beliefs, graph
      ensures Valid()
      ensures EndsAt(M.Progress(View(), remaining, added), rule, derivs, j + 1, end)
    {
      hide M.Emit, M.Writes, EndsAt, Represents, TriplesOf, Mirrored;
      ghost var st := View();
      var counted := Emit(rule, derivs[j]);
      remaining, added := have, soFar;
      if counted {
        remaining, added := have - 1, soFar + 1;
      }
      EndsAtStep(M.Progress(st, have, soFar), rule, derivs, j, end, counted, View());
    }

    /** The loop over one rule's derivations (rules.go:58-78). */
    method EmitAll(rule: Str, derivs: seq<Derivation>, have: int, soFar: nat) returns (remaining: int, added: nat)
      requires Valid() && have > 0
      modifies this`derivations, beliefs, graph
      ensures Valid()
      ensures M.Progress(View(), remaining, added) == M.EmitAll(M.Progress(old(View()), have, soFar), rule, derivs)
    {
      hide Represents, TriplesOf, Mirrored;
      remaining, added := have, soFar;
      hide M.Turn;
      ghost var end := M.EmitAll(M.Progress(View(), have, soFar), rule, derivs);
      assert derivs[0..] == derivs;
      var j := 0;
      while j < |derivs| && remaining > 0
        invariant j <= |derivs| && Valid()
        invariant EndsAt(M.Progress(View(), remaining, added), rule, derivs, j, end)
      {
        remaining, added := Turn(rule, derivs, j, remaining, added, end);
        j := j + 1;
      }
    }

    /** One round over all the rules (rules.go:50-79). */
    method ApplyRound(have: int) returns (remaining: int, added: nat)
      requires Valid() && have > 0
      modifies this`derivations, beliefs, graph
      ensures Valid() && M.Progress(View(), remaining, added) == M.FullRound(old(View()), have)
    {
      hide Represents, TriplesOf, Mirrored;
      var edges := graph.EdgesAll();
      var predIdx := BuildPredicateIndex(edges);
      remaining, added := have, 0;
      ghost var start := M.Progress(View(), have, 0);
      var i := 0;
      while i < |rules|
        invariant i <= |rules| && Valid() && remaining > 0
        invariant beliefs == old(beliefs) && graph == old(graph) && rules == old(rules)
        invariant M.Round(start, rules, edges) == M.Round(M.Progress(View(), remaining, added), rules[i..], edges)
      {
        assert rules[i..][0] == rules[i] && rules[i..][1..] == rules[i + 1..];
        var derivs := EvaluateRuleDerivationsIndexed(rules[i], edges, predIdx, remaining);
        remaining, added := EmitAll(rules[i].name, derivs, remaining, added);
        if remaining <= 0 {
          return;
        }
        i := i + 1;
      }
    }

    /** `ApplyRules` (rules.go:43-84). */
    method ApplyRules(maxDerivations: int)
      requires Valid()
      modifies this`derivations, beliefs, graph
      ensures Valid() && View() == M.ApplyRules(old(View()), maxDerivations)
    {
      hide Represents, TriplesOf, Mirrored;
      if maxDerivations <= 0 {
        return;
      }
      var remaining := maxDerivations;
      while remaining > 0
        invariant Valid() && beliefs == old(beliefs) && graph == old(graph)
        invariant remaining > 0
        invariant M.ApplyRules(old(View()), maxDerivations) == M.ApplyRules(View(), remaining)
        decreases remaining
      {
        ghost var have := remaining;
        var added;
        remaining, added := ApplyRound(remaining);
        assert remaining == have - added;
        if remaining <= 0 || added == 0 {
          return;
        }
      }
    }

    /** The beliefs that are not derived (engine.go:141-148). */
    method CollectBase() returns (base: seq<Belief>)
      requires Valid()
      ensures forall b :: b in base <==> b in M.BaseBeliefs(beliefs.contents)
    {
      hide Represents, TriplesOf, Mirrored;
      var atoms := beliefs.Atoms();
      ghost var known := beliefs.contents;
      SortSorts(Listing(AtomsOf(known)), AtomOrder);
      base := [];
      for i := 0 to |atoms|
        invariant forall b :: b in base <==> b in known && !M.IsDerived(b) && b.atom in atoms[..i]
      {
        var snap := beliefs.Snapshot(atoms[i]);
        SnapshotHolds(atoms[i]);
        var more := NotDerived(snap);
        base := base + more;
        TakeOneMore(atoms, i);
      }
      assert atoms[..|atoms|] == atoms;
      assert forall b :: b in known ==> b.atom in AtomsOf(known);
    }

    static method NotDerived(snap: seq<Belief>) returns (base: seq<Belief>)
      ensures forall b :: b in base <==> b in snap && !M.IsDerived(b)
    {
      base := [];
      for i := 0 to |snap|
        invariant forall b :: b in base <==> b in snap[..i] && !M.IsDerived(b)
      {
        assert snap[..i + 1] == snap[..i] + [snap[i]];
        if !M.IsDerived(snap[i]) {
          base := base + [snap[i]];
        }
      }
      assert snap[..|snap|] == snap;
    }

    lemma SnapshotHolds(a: Atom)
      requires Valid()
      ensures forall b :: b in SnapshotOf(beliefs.contents, a) <==> b in beliefs.contents && b.atom == a
    {
      ListOfFacts(beliefs.contents, a, NEGATIVE);
      ListOfFacts(beliefs.contents, a, POSITIVE);
      ContentsValid();
    }

    lemma ContentsValid()
      requires Valid()
      ensures forall b :: b in beliefs.contents ==> ValidBelief(b)
    {
    }

    /** Puts the resolutions into a new store (engine.go:160-162). */
    method RestoreResolutions(resolutions: seq<Resolution>, ghost known: map<Atom, Resolution>)
      requires Valid() && beliefs.resolutionByAtom == map[]
      requires forall r :: r in resolutions <==> r in known.Values
      requires forall a :: a in known ==> known[a].atom == a && ValidResolution(known[a])
      modifies beliefs`resolutionByAtom
      ensures Valid() && beliefs.resolutionByAtom == known
    {
      hide Represents, TriplesOf, Mirrored;
      for i := 0 to |resolutions|
        invariant Valid()
        invariant forall a :: a in beliefs.resolutionByAtom ==> a in known && beliefs.resolutionByAtom[a] == known[a]
        invariant forall k :: 0 <= k < i ==> resolutions[k].atom in beliefs.resolutionByAtom
      {
        var r := resolutions[i];
        assert r in resolutions && r in known.Values;
        var ok := beliefs.SetResolution(r);
      }
      forall a | a in known ensures a in beliefs.resolutionByAtom {
        assert known[a] in resolutions;
      }
    }

    /** Ingests the base beliefs again (engine.go:163-165). */
    method ReIngest(base: seq<Belief>)
      requires Valid() && beliefs.contents == {} && graph.edges == {}
      requires forall b :: b in base ==> ValidBelief(b)
      modifies beliefs, graph
      ensures Valid() && View() == old(View()).(
                beliefs := ToSet(base),
                graph := M.Projected(ToSet(base), old(View()).resolutions))
    {
      hide Represents, TriplesOf, Mirrored;
      ghost var res := beliefs.resolutionByAtom;
      for i := 0 to |base|
        invariant Valid() && beliefs.resolutionByAtom == res
        invariant beliefs.contents == ToSet(base[..i])
        invariant graph.edges == M.Projected(beliefs.contents, res)
      {
        assert base[i] in base;
        TakenSet(base, i);
        ProjectedAdds(beliefs.contents, res, base[i]);
        var _ := IngestNoLog(base[i]);
      }
      assert base[..|base|] == base;
    }

    /** A new store and a new graph from these (engine.go:151-165). */
    method Rebuild(base: seq<Belief>, resolutions: seq<Resolution>)
      requires Valid()
      requires forall b :: b in base ==> ValidBelief(b)
      requires forall r :: r in resolutions <==> r in beliefs.resolutionByAtom.Values
      modifies this`beliefs, this`graph, this`derivations
      ensures Valid() && fresh(beliefs) && fresh(graph)
      ensures View() == old(View()).(
                beliefs := ToSet(base),
                graph := M.Projected(ToSet(base), old(View()).resolutions),
                derivations := map[])
    {
      hide Represents, TriplesOf, Mirrored;
      ghost var known := beliefs.resolutionByAtom;
      beliefs := new Store();
      graph := new MemGraph();
      derivations := map[];
      RestoreResolutions(resolutions, known);
      ReIngest(base);
    }

    /** `recompute` (engine.go:140-167). */
    method Recompute()
      requires Valid()
      modifies this`beliefs, this`graph, this`derivations
      ensures Valid() && fresh(beliefs) && fresh(graph) && View() == M.Recompute(old(View()))
    {
      hide Represents, TriplesOf, Mirrored;
      var base := CollectBase();
      var resolutions := beliefs.Resolutions();
      ContentsValid();
      assert ToSet(base) == M.BaseBeliefs(beliefs.contents);
      Rebuild(base, resolutions);
      ApplyRules(M.CAP);
    }

    /** Encodes and appends a belief, if there is a log. */
    method LogFact(b: Belief) returns (ok: bool)
      requires Valid()
      modifies log
      ensures Valid()
      ensures LogView() == if ok then M.Appended(old(LogView()), FACT_ADDED, C.EncodeBelief(b)).GetOr(None) else old(LogView())
      ensures ok <==> M.Appended(old(LogView()), FACT_ADDED, C.EncodeBelief(b)).Some?
    {
      ok := true;
      if log != null {
        var payload := IO.EncodeBelief(b);
        ok := payload.Some?;
        if ok {
          ok := log.Append(Record(FACT_ADDED, payload.value));
        }
      }
    }

    method LogRule(r: Rule) returns (ok: bool)
      requires Valid()
      modifies log
      ensures Valid()
      ensures LogView() == if ok then M.Appended(old(LogView()), RULE_ADDED, C.EncodeRule(r)).GetOr(None) else old(LogView())
      ensures ok <==> M.Appended(old(LogView()), RULE_ADDED, C.EncodeRule(r)).Some?
    {
      hide C.EncodeRule, C.EncodeBelief, Frames, Header, Represents, TriplesOf, Mirrored;
      ok := true;
      if log != null {
        var payload := IO.EncodeRule(r);
        ok := payload.Some?;
        if ok {
          ok := log.Append(Record(RULE_ADDED, payload.value));
        }
      }
    }

    method LogResolution(r: Resolution) returns (ok: bool)
      requires Valid()
      modifies log
      ensures Valid()
      ensures LogView() == if ok then M.Appended(old(LogView()), RESOLUTION_SET, C.EncodeResolution(r)).GetOr(None) else old(LogView())
      ensures ok <==> M.Appended(old(LogView()), RESOLUTION_SET, C.EncodeResolution(r)).Some?
    {
      hide C.EncodeRule, C.EncodeBelief, Frames, Header, Represents, TriplesOf, Mirrored;
      ok := true;
      if log != null {
        var payload := IO.EncodeBelief(C.AsBelief(r));
        ok := payload.Some?;
        if ok {
          ok := log.Append(Record(RESOLUTION_SET, payload.value));
        }
      }
    }

    /** `Ingest` (engine.go:169-194). */
    method Ingest(b: Belief) returns (r: IngestResult)
      requires Valid()
      modifies this`derivations, beliefs, graph, log
      ensures Valid()
      ensures M.Ingest(old(View()), b) == if r.Failed? then None else Some(View())
      ensures r.Failed? ==> View() == M.IngestNoLog(old(View()), b)
      ensures r.Ingested? ==> r.contradiction == ContradictionOf(old(beliefs.contents), old(beliefs.resolutionByAtom), b)
      ensures r.Ingested? && r.contradiction.Some? ==>
                OwedBy(old(beliefs.contents), old(beliefs.resolutionByAtom), b, r.contradiction.value)
      ensures r.Ingested? ==>
                (r.contradiction.Some? <==>
                  b !in old(beliefs.contents) && Conflicts(old(beliefs.contents), old(beliefs.resolutionByAtom), b))
    {
      hide Represents, TriplesOf, Mirrored, OwedBy, Conflicts;
      beliefs.AllValid();
      if ValidBelief(b) { ReportsExactly(beliefs.contents, beliefs.resolutionByAtom, b); }
      var added := IngestNoLog(b);
      r := Failed;
      if added.Accepted? {
        var ok := LogFact(b);
        if ok {
          ApplyRules(M.CAP);
          r := Ingested(added.contradiction);
        }
      }
    }

    /** `AddRule` (rules.go:19-41). */
    method AddRule(r: Rule) returns (ok: bool)
      requires Valid()
      modifies this`rules, this`derivations, beliefs, graph, log
      ensures Valid()
      ensures M.AddRule(old(View()), r) == if ok then Some(View()) else None
      ensures !ok ==> View() == if r.name == [] || r.premises == [] then old(View()) else old(View()).(rules := old(rules) + [r])
    {
      hide Represents, TriplesOf, Mirrored;
      ok := r.name != [] && |r.premises| != 0;
      if ok {
        rules := rules + [r];
        ok := LogRule(r);
        if ok {
          ApplyRules(M.CAP);
        }
      }
    }

    /** `Resolve` (engine.go:196-217). */
    method Resolve(r: Resolution) returns (ok: bool)
      requires Valid()
      modifies this`beliefs, this`graph, this`derivations, beliefs, log
      ensures Valid()
      ensures M.Resolve(old(View()), r) == if ok then Some(View()) else None
      ensures !ok ==> View() == if !ValidResolution(r) then old(View())
                                else old(View()).(resolutions := old(View()).resolutions[r.atom := r])
    {
      hide Represents, TriplesOf, Mirrored;
      ok := beliefs.SetResolution(r);
      if ok {
        ok := LogResolution(r);
        if ok {
          Recompute();
        }
      }
    }

    /** The callback of `ReplayFromLog` (engine.go:232-257). */
    method ReplayRecord(rec: Record) returns (ok: bool)
      requires Valid()
      modifies this`rules, beliefs, graph
      ensures Valid()
      ensures M.ReplayRecord(old(View()), rec) == if ok then Some(View()) else None
      ensures !ok ==> View() == old(View())
    {
      hide C.DecodeBelief, C.DecodeRule, ValidBelief, ValidResolution, Represents, TriplesOf, Mirrored;
      ok := true;
      if rec.kind == FACT_ADDED {
        var b := IO.DecodeBelief(rec.payload);
        ok := b.Some?;
        if ok {
          var r := IngestNoLog(b.value);
          ok := r.Accepted?;
        }
      } else if rec.kind == RESOLUTION_SET {
        var b := IO.DecodeBelief(rec.payload);
        ok := b.Some?;
        if ok {
          ok := beliefs.SetResolution(Resolution(b.value.atom, b.value.polarity, b.value.source, b.value.unixNano));
        }
      } else if rec.kind == RULE_ADDED {
        var r := IO.DecodeRule(rec.payload);
        ok := r.Some?;
        if ok {
          rules := rules + [r.value];
        }
      }
    }

    /** The engine forgets everything but its log (engine.go:224-230). */
    method Reset()
      requires Valid()
      modifies this`beliefs, this`graph, this`rules, this`derivations
      ensures Valid() && fresh(beliefs) && fresh(graph) && View() == M.NewEngine(old(LogView()))
    {
      hide Represents, TriplesOf, Mirrored;
      beliefs := new Store();
      graph := new MemGraph();
      rules := [];
      derivations := map[];
    }

    /** The records in order, up to the first that fails. */
    method ReplayRecords(recs: seq<Record>) returns (ok: bool)
      requires Valid()
      modifies this`rules, beliefs, graph
      ensures Valid()
      ensures M.ReplayRecords(old(View()), recs) == if ok then Some(View()) else None
      ensures View() == M.ReadSoFar(old(View()), recs)
    {
      hide Represents, TriplesOf, Mirrored;
      ok := true;
      var i := 0;
      while i < |recs|
        invariant i <= |recs| && Valid() && ok
        invariant M.ReplayRecords(old(View()), recs) == M.ReplayRecords(View(), recs[i..])
        invariant M.ReadSoFar(old(View()), recs) == M.ReadSoFar(View(), recs[i..])
      {
        assert recs[i..][0] == recs[i] && recs[i..][1..] == recs[i + 1..];
        ok := ReplayRecord(recs[i]);
        if !ok {
          return;
        }
        i := i + 1;
      }
    }

    /** `ReplayFromLog` (engine.go:219-266). */
    method ReplayFromLog() returns (ok: bool)
      requires Valid()
      modifies this`beliefs, this`graph, this`rules, this`derivations
      ensures Valid()
      ensures M.ReplayFromLog(old(View())) == if ok then Some(View()) else None
      ensures !ok ==> View() == if old(LogView()).None? then old(View())
                                else M.ReadSoFar(M.NewEngine(old(LogView())), old(LogView()).value)
    {
      hide Represents, TriplesOf, Mirrored, Holds, Delivered, Frames, Appendable, M.ReplayRecords, M.ReadSoFar, M.Recompute;
      ok := log != null;
      if ok {
        Reset();
        var recs, stop := log.Replay();
        ok := ReplayRecords(recs);
        if ok {
          Recompute();
        }
      }
    }

    /** The loop of the bulk loaders and their final saturation (bulk.go:167-197). */
    method BulkIngest(items: seq<M.Item>, source: Str) returns (result: BulkResult)
      requires Valid()
      modifies this`derivations, beliefs, graph, log
      ensures Valid() && View() == M.BulkIngest(old(View()), items, source)
      ensures result.total == |items| && result.errors == |InvalidItems(items, source)|
      ensures result.ingested == result.total - result.errors
      ensures result.contradictions == |Contradicted(old(View()), items, source)|
    {
      result := Load(items, source);
      ApplyRules(M.BULK_CAP);
    }

    method Load(items: seq<M.Item>, source: Str) returns (result: BulkResult)
      requires Valid()
      modifies beliefs, graph, log
      ensures Valid() && View() == M.Load(old(View()), items, source)
      ensures result.total == |items| && result.errors == |InvalidItems(items, source)|
      ensures result.ingested == result.total - result.errors
      ensures result.contradictions == |Contradicted(old(View()), items, source)|
    {
      hide Represents, TriplesOf, Mirrored;
      result := BulkResult(0, 0, 0, 0);
      var i := 0;
      while i < |items|
        invariant i <= |items| && Valid()
        invariant View() == M.Load(old(View()), items[..i], source)
        invariant result.total == i && result.errors == |InvalidItems(items[..i], source)|
        invariant result.ingested == result.total - result.errors
        invariant result.contradictions == |Contradicted(old(View()), items[..i], source)|
      {
        LoadStep(old(View()), items, i, source);
        var added := LoadItem(items[i], source);
        i := i + 1;
        result := Tally(result, added);
      }
      assert items[..|items|] == items;
    }

    /** One triple of a bulk load: ingested, then logged if it can be (bulk.go:172-190). */
    method LoadItem(item: M.Item, source: Str) returns (added: Added)
      requires Valid()
      modifies beliefs, graph, log
      ensures Valid() && View() == M.Load(old(View()), [item], source)
      ensures added.Invalid? <==> !ValidBelief(M.ItemBelief(item, source))
      ensures added.Accepted? && added.contradiction.Some? <==> Contradicts(old(View()), item, source)
    {
      hide Represents, TriplesOf, Mirrored;
      var b := M.ItemBelief(item, source);
      added := IngestNoLog(b);
      if added.Accepted? {
        var _ := LogFact(b);
      }
    }

    /** `Evaluate` (query.go:26-64). */
    method Evaluate(atom: Atom) returns (truth: M.Truth, proof: M.Proof)
      requires Valid()
      ensures (truth, proof) == M.Evaluate(View(), atom)
    {
      var r := beliefs.GetResolution(atom);
      if r.Some? {
        truth := if r.value.polarity == POSITIVE then M.True else M.False;
        proof := M.ByResolution(r.value.source);
      } else {
        var seenPos, seenNeg := Polarities(atom);
        if seenPos && seenNeg {
          truth, proof := M.Both, M.Contradiction;
        } else if seenPos {
          var ds := M.ProofsOf(derivations, atom);
          truth, proof := M.True, if |ds| > 0 then M.Derived(ds) else M.ByBelief;
        } else if seenNeg {
          truth, proof := M.False, M.ByBelief;
        } else {
          truth, proof := M.Unknown, M.NoEvidence;
        }
      }
    }

    /** The polarities believed of an atom (query.go:40-50). */
    method Polarities(atom: Atom) returns (seenPos: bool, seenNeg: bool)
      requires Valid()
      ensures seenPos <==> M.Believed(beliefs.contents, atom, POSITIVE)
      ensures seenNeg <==> M.Believed(beliefs.contents, atom, NEGATIVE)
    {
      var snap := beliefs.Snapshot(atom);
      SnapshotHolds(atom);
      seenPos, seenNeg := SeenPolarities(snap);
      SeenMeansBelieved(snap, beliefs.contents, atom, POSITIVE);
      SeenMeansBelieved(snap, beliefs.contents, atom, NEGATIVE);
    }

    /** The loop of `Evaluate` (query.go:43-50). */
    static method SeenPolarities(snap: seq<Belief>) returns (seenPos: bool, seenNeg: bool)
      ensures seenPos <==> exists k :: 0 <= k < |snap| && snap[k].polarity == POSITIVE
      ensures seenNeg <==> exists k :: 0 <= k < |snap| && snap[k].polarity == NEGATIVE
    {
      seenPos, seenNeg := false, false;
      for i := 0 to |snap|
        invariant seenPos <==> exists k :: 0 <= k < i && snap[k].polarity == POSITIVE
        invariant seenNeg <==> exists k :: 0 <= k < i && snap[k].polarity == NEGATIVE
      {
        if snap[i].polarity == POSITIVE {
          seenPos := true;
        }
        if snap[i].polarity == NEGATIVE {
          seenNeg := true;
        }
      }
    }

    /** `CanonicalBeliefs` (canonical.go:10-31). */
    method CanonicalBeliefs() returns (out: seq<Belief>)
      requires Valid()
      requires forall b :: b in View().beliefs ==> CleanAtom(b.atom)
      ensures out == Compaction.CanonicalBeliefs(View())
    {
      hide Represents, TriplesOf, Mirrored, CanonicalOrder, AtomOrder, SnapshotOf, KeyLess;
      var atoms := beliefs.Atoms();
      ghost var known := beliefs.contents;
      AtomOrderInjective(Listing(AtomsOf(known)));
      SortedListingIs(AtomsOf(known), Listing(AtomsOf(known)), AtomOrder);
      AscendingIsSorted(atoms, AtomOrder);
      out := [];
      for i := 0 to |atoms|
        invariant forall b :: b in out <==> b in known && b.atom in atoms[..i]
        invariant Distinct(out)
      {
        var snap := beliefs.Snapshot(atoms[i]);
        SnapshotHolds(atoms[i]);
        SnapshotDistinct(known, atoms[i]);
        assert atoms[i] !in atoms[..i];
        DistinctConcat(out, snap);
        out := out + snap;
        TakeOneMore(atoms, i);
      }
      assert atoms[..|atoms|] == atoms;
      assert forall b :: b in known ==> b.atom in AtomsOf(known);
      AllInCanonicalOrder(out);
      SortedListingIs(known, out, CanonicalOrder);
      out := Sort(out, CanonicalOrder);
    }

    lemma AllInCanonicalOrder(bs: seq<Belief>)
      requires forall b :: b in bs ==> CleanAtom(b.atom)
      ensures Injective(bs, CanonicalOrder)
    {
      forall x, y | x in bs && y in bs && CanonicalOrder(x) == CanonicalOrder(y) ensures x == y {
        CanonicalOrderInjective(x, y);
      }
    }

    /** `CanonicalResolutions` (canonical.go:33-50). */
    method CanonicalResolutions() returns (out: seq<Resolution>)
      requires Valid()
      requires forall a :: a in View().resolutions ==> CleanAtom(a)
      ensures out == Compaction.CanonicalResolutions(View())
    {
      out := beliefs.Resolutions();
      forall x, y | x in out && y in out && ResolutionOrder(x) == ResolutionOrder(y) ensures x == y {
        CanonicalOrderInjective(C.AsBelief(x), C.AsBelief(y));
      }
      SortedListingIs(beliefs.resolutionByAtom.Values, out, ResolutionOrder);
      out := Sort(out, ResolutionOrder);
    }

    /** `CompactToWAL` (compact.go:6-41), on a log file just created. */
    method CompactToWAL(w: WAL) returns (ok: bool)
      requires Valid() && w.Valid() && w.open && w.records == [] && w != log
      requires forall b :: b in View().beliefs ==> CleanAtom(b.atom)
      requires forall a :: a in View().resolutions ==> CleanAtom(a)
      modifies w
      ensures Valid() && View() == old(View()) && w.Valid()
      ensures ok ==> Compacted(View()) == Some(w.records)
      ensures !ok ==> Compacted(View()) == None
    {
      var bs := CanonicalBeliefs();
      var rs := CanonicalResolutions();
      ghost var all := Compacted(View());
      var qs := RulesSnapshot(rules);
      ok := WriteAllBeliefs(w, bs);
      if !ok {
        WritingFails(WriteResolutions(None, rs), qs);
        ResolvingFails(rs);
        return false;
      }
      ok := WriteAllResolutions(w, rs);
      if !ok {
        WritingFails(None, qs);
        return false;
      }
      ok := WriteAllRules(w, qs);
    }

    static method WriteAllBeliefs(w: WAL, bs: seq<Belief>) returns (ok: bool)
      requires w.Valid() && w.open
      modifies w
      ensures w.Valid() && w.open
      ensures WriteBeliefs(Some(old(w.records)), bs) == if ok then Some(w.records) else None
    {
      var i := 0;
      while i < |bs|
        invariant i <= |bs| && w.Valid() && w.open
        invariant WriteBeliefs(Some(old(w.records)), bs) == WriteBeliefs(Some(w.records), bs[i..])
      {
        assert bs[i..][0] == bs[i] && bs[i..][1..] == bs[i + 1..];
        BeliefWritingFails(bs[i + 1..]);
        var payload := IO.EncodeBelief(bs[i]);
        if payload.None? {
          return false;
        }
        ok := w.Append(Record(FACT_ADDED, payload.value));
        if !ok {
          return false;
        }
        i := i + 1;
      }
      return true;
    }

    static method WriteAllResolutions(w: WAL, rs: seq<Resolution>) returns (ok: bool)
      requires w.Valid() && w.open
      modifies w
      ensures w.Valid() && w.open
      ensures WriteResolutions(Some(old(w.records)), rs) == if ok then Some(w.records) else None
    {
      var i := 0;
      while i < |rs|
        invariant i <= |rs| && w.Valid() && w.open
        invariant WriteResolutions(Some(old(w.records)), rs) == WriteResolutions(Some(w.records), rs[i..])
      {
        assert rs[i..][0] == rs[i] && rs[i..][1..] == rs[i + 1..];
        ResolvingFails(rs[i + 1..]);
        var payload := IO.EncodeBelief(C.AsBelief(rs[i]));
        if payload.None? {
          return false;
        }
        ok := w.Append(Record(RESOLUTION_SET, payload.value));
        if !ok {
          return false;
        }
        i := i + 1;
      }
      return true;
    }

    static method WriteAllRules(w: WAL, qs: seq<Rule>) returns (ok: bool)
      requires w.Valid() && w.open
      modifies w
      ensures w.Valid() && w.open
      ensures WriteRules(Some(old(w.records)), qs) == if ok then Some(w.records) else None
    {
      var i := 0;
      while i < |qs|
        invariant i <= |qs| && w.Valid() && w.open
        invariant WriteRules(Some(old(w.records)), qs) == WriteRules(Some(w.records), qs[i..])
      {
        assert qs[i..][0] == qs[i] && qs[i..][1..] == qs[i + 1..];
        WritingFails(None, qs[i + 1..]);
        var payload := IO.EncodeRule(qs[i]);
        if payload.None? {
          return false;
        }
        ok := w.Append(Record(RULE_ADDED, payload.value));
        if !ok {
          return false;
        }
        i := i + 1;
      }
      return true;
    }
  }

  ghost predicate Distinct<T(!new)>(s: seq<T>) { forall i, j :: 0 <= i < j < |s| ==> s[i] != s[j] }

  lemma DistinctConcat<T(!new)>(s: seq<T>, t: seq<T>)
    requires Distinct(s) && Distinct(t) && forall x :: x in s ==> x !in t
    ensures Distinct(s + t)
  {
    var u := s + t;
    forall i, j | 0 <= i < j < |u| ensures u[i] != u[j] {
      if i < |s| <= j { assert s[i] in s && t[j - |s|] in t; }
    }
  }

  lemma TakeOneMore<T(!new)>(s: seq<T>, i: nat)
    requires i < |s|
    ensures forall x :: x in s[..i + 1] <==> x in s[..i] || x == s[i]
  {
    assert s[..i + 1] == s[..i] + [s[i]];
  }

  ghost function ToSet(s: seq<Belief>): set<Belief> { set b | b in s }

  lemma TakenSet(s: seq<Belief>, i: nat)
    requires i < |s|
    ensures ToSet(s[..i + 1]) == ToSet(s[..i]) + {s[i]}
  {
    TakeOneMore(s, i);
  }

  lemma ProjectedAdds(beliefs: set<Belief>, res: map<Atom, Resolution>, b: Belief)
    ensures M.Projected(beliefs + {b}, res) == M.Projected(beliefs, res) +
            if b.polarity == POSITIVE && !M.ResolvedFalse(res, b.atom) then {b.atom} else {}
  {
  }

  /** The counters after one more triple. */
  function Tally(r: BulkResult, added: Added): BulkResult
  {
    if added.Invalid? then r.(total := r.total + 1, errors := r.errors + 1)
    else r.(total := r.total + 1, ingested := r.ingested + 1,
            contradictions := r.contradictions + if added.contradiction.Some? then 1 else 0)
  }

  /** From `p`, with the derivations from `j` on still to come, the loop ends at `end`. */
  ghost predicate EndsAt(p: M.Progress, rule: Str, ds: seq<Derivation>, j: nat, end: M.Progress)
    requires j <= |ds|
  {
    end == if p.remaining > 0 then M.EmitAll(p, rule, ds[j..]) else p
  }

  lemma EndsAtStep(p: M.Progress, rule: Str, ds: seq<Derivation>, j: nat, end: M.Progress, counted: bool, st: M.State)
    requires j < |ds| && p.remaining > 0 && EndsAt(p, rule, ds, j, end)
    requires st == M.Emit(p.st, rule, ds[j]) && (counted <==> M.Writes(p.st, rule, ds[j]))
    ensures EndsAt(if counted then M.Progress(st, p.remaining - 1, p.added + 1) else M.Progress(st, p.remaining, p.added),
                   rule, ds, j + 1, end)
  {
    assert ds[j..][0] == ds[j] && ds[j..][1..] == ds[j + 1..];
  }

  lemma {:induction false} LoadLast(st: M.State, items: seq<M.Item>, item: M.Item, source: Str)
    ensures M.Load(st, items + [item], source) == M.Load(M.Load(st, items, source), [item], source)
    decreases |items|
  {
    if items == [] {
      assert [] + [item] == [item];
    } else {
      assert (items + [item])[0] == items[0] && (items + [item])[1..] == items[1..] + [item];
      var one := F.AfterItem(st, items[0], source);
      assert M.Load(st, items, source) == M.Load(one, items[1..], source);
      assert M.Load(st, items + [item], source) == M.Load(one, items[1..] + [item], source);
      LoadLast(one, items[1..], item, source);
    }
  }

  lemma InvalidOneMore(items: seq<M.Item>, item: M.Item, source: Str)
    ensures |InvalidItems(items + [item], source)| ==
            |InvalidItems(items, source)| + if ValidBelief(M.ItemBelief(item, source)) then 0 else 1
  {
    hide ValidAtom;
    var more := items + [item];
    var last := if ValidBelief(M.ItemBelief(item, source)) then {} else {|items|};
    assert forall i: nat :: i < |items| ==> more[i] == items[i];
    assert InvalidItems(more, source) == InvalidItems(items, source) + last;
  }

  lemma ContradictedOneMore(st: M.State, items: seq<M.Item>, item: M.Item, source: Str)
    ensures |Contradicted(st, items + [item], source)| ==
            |Contradicted(st, items, source)| + if Contradicts(M.Load(st, items, source), item, source) then 1 else 0
  {
    hide Contradicts, M.Load;
    var more := items + [item];
    var last := if Contradicts(M.Load(st, items, source), item, source) then {|items|} else {};
    assert forall i: nat :: i < |items| ==> more[i] == items[i] && more[..i] == items[..i];
    assert more[..|items|] == items;
    assert Contradicted(st, more, source) == Contradicted(st, items, source) + last;
  }

  lemma LoadStep(st: M.State, items: seq<M.Item>, i: nat, source: Str)
    requires i < |items|
    ensures M.Load(st, items[..i + 1], source) == M.Load(M.Load(st, items[..i], source), [items[i]], source)
    ensures |InvalidItems(items[..i + 1], source)| ==
            |InvalidItems(items[..i], source)| + if ValidBelief(M.ItemBelief(items[i], source)) then 0 else 1
    ensures |Contradicted(st, items[..i + 1], source)| ==
            |Contradicted(st, items[..i], source)| + if Contradicts(M.Load(st, items[..i], source), items[i], source) then 1 else 0
  {
    hide Contradicts, M.Load, InvalidItems, Contradicted, ValidBelief;
    assert items[..i + 1] == items[..i] + [items[i]];
    LoadLast(st, items[..i], items[i], source);
    InvalidOneMore(items[..i], items[i], source);
    ContradictedOneMore(st, items[..i], items[i], source);
  }

  lemma SeenMeansBelieved(snap: seq<Belief>, known: set<Belief>, a: Atom, pol: Polarity)
    requires forall b :: b in snap <==> b in known && b.atom == a
    ensures M.Believed(known, a, pol) <==> exists k :: 0 <= k < |snap| && snap[k].polarity == pol
  {
    if M.Believed(known, a, pol) {
      var b :| b in known && b.atom == a && b.polarity == pol;
      assert b in snap;
    }
    if k :| 0 <= k < |snap| && snap[k].polarity == pol { assert snap[k] in snap; }
  }

  lemma SnapshotDistinct(known: set<Belief>, a: Atom)
    ensures Distinct(SnapshotOf(known, a))
  {
    var n, p := ListOf(known, a, NEGATIVE), ListOf(known, a, POSITIVE);
    ListOfFacts(known, a, NEGATIVE);
    ListOfFacts(known, a, POSITIVE);
    AscendingIsSorted(n, TimeOrder);
    AscendingIsSorted(p, TimeOrder);
    DistinctConcat(n, p);
  }

  lemma {:induction false} BeliefWritingFails(bs: seq<Belief>)
    ensures WriteBeliefs(None, bs) == None
    decreases |bs|
  {
    if bs != [] { BeliefWritingFails(bs[1..]); }
  }

  lemma {:induction false} ResolvingFails(rs: seq<Resolution>)
    ensures WriteResolutions(None, rs) == None
    decreases |rs|
  {
    if rs != [] { ResolvingFails(rs[1..]); }
  }

  lemma {:induction false} WritingFails(recs: Option<seq<Record>>, qs: seq<Rule>)
    ensures recs == None ==> WriteRules(recs, qs) == None
    decreases |qs|
  {
    if qs != [] { WritingFails(None, qs[1..]); }
  }
}
