/** Compaction writes a canonical log from a snapshot, derived beliefs included
    (pkg/engine/compact.go, pkg/engine/canonical.go). */
module Compaction {
  import opened Order
  import opened Facts
  import opened Rules
  import opened Datalog
  import opened Codec
  import opened Wal
  import opened Machine
  import opened Soundness
  import opened Exactness
  import opened Lifecycle
  import opened Recovery

  /** The comparator of `CanonicalBeliefs` and `CanonicalResolutions`. */
  function CanonicalOrder(b: Belief): Key { [AtomKey(b.atom), [b.polarity], [b.unixNano], b.source] }

  function ResolutionOrder(r: Resolution): Key { CanonicalOrder(AsBelief(r)) }

  function PremiseKeys(ps: seq<Pattern>): Key
  {
    if ps == [] then [[0]] else [[1], ps[0].from, ps[0].pred, ps[0].to] + PremiseKeys(ps[1..])
  }

  /** The comparator of `RulesSnapshot`: name, premises pairwise, their number,
      conclusion.  A marker tells another premise ([1]) from the end ([0]). */
  function RuleOrder(r: Rule): Key
  {
    [r.name] + PremiseKeys(r.premises) + [r.conclusion.from, r.conclusion.pred, r.conclusion.to]
  }

  ghost function CanonicalBeliefs(st: State): seq<Belief> { SortedListing(st.beliefs, CanonicalOrder) }

  ghost function CanonicalResolutions(st: State): seq<Resolution>
  {
    SortedListing(st.resolutions.Values, ResolutionOrder)
  }

  function RulesSnapshot(rules: seq<Rule>): seq<Rule> { Sort(rules, RuleOrder) }

  /** One record appended, or the error that ends the compaction. */
  function Written(recs: Option<seq<Record>>, kind: EventType, payload: Option<Bytes>): Option<seq<Record>>
  {
    if recs.None? || payload.None? || !Appendable(Record(kind, payload.value)) then None
    else Some(recs.value + [Record(kind, payload.value)])
  }

  function WriteBeliefs(recs: Option<seq<Record>>, bs: seq<Belief>): Option<seq<Record>>
    decreases |bs|
  {
    if bs == [] then recs else WriteBeliefs(Written(recs, FACT_ADDED, EncodeBelief(bs[0])), bs[1..])
  }

  function WriteResolutions(recs: Option<seq<Record>>, rs: seq<Resolution>): Option<seq<Record>>
    decreases |rs|
  {
    if rs == [] then recs else WriteResolutions(Written(recs, RESOLUTION_SET, EncodeResolution(rs[0])), rs[1..])
  }

  function WriteRules(recs: Option<seq<Record>>, rs: seq<Rule>): Option<seq<Record>>
    decreases |rs|
  {
    if rs == [] then recs else WriteRules(Written(recs, RULE_ADDED, EncodeRule(rs[0])), rs[1..])
  }

  /** The records of `CompactToWAL` (compact.go:6-41). */
  ghost function Compacted(st: State): Option<seq<Record>>
  {
    WriteRules(WriteResolutions(WriteBeliefs(Some([]), CanonicalBeliefs(st)), CanonicalResolutions(st)), RulesSnapshot(st.rules))
  }

  // ---------- when compaction succeeds

  lemma {:induction false} BeliefsWritten(recs: Option<seq<Record>>, bs: seq<Belief>)
    ensures WriteBeliefs(recs, bs).Some? <==> recs.Some? && forall b :: b in bs ==> EncodeBelief(b).Some?
    decreases |bs|
  {
    hide EncodeBelief;
    if bs != [] {
      FactFits(bs[0]);
      assert forall b :: b in bs <==> b == bs[0] || b in bs[1..];
      BeliefsWritten(Written(recs, FACT_ADDED, EncodeBelief(bs[0])), bs[1..]);
    }
  }

  lemma {:induction false} ResolutionsWritten(recs: Option<seq<Record>>, rs: seq<Resolution>)
    ensures WriteResolutions(recs, rs).Some? <==> recs.Some? && forall r :: r in rs ==> EncodeResolution(r).Some?
    decreases |rs|
  {
    hide EncodeBelief;
    if rs != [] {
      FactFits(AsBelief(rs[0]));
      assert forall r :: r in rs <==> r == rs[0] || r in rs[1..];
      ResolutionsWritten(Written(recs, RESOLUTION_SET, EncodeResolution(rs[0])), rs[1..]);
    }
  }

  predicate RuleWritable(r: Rule) { RuleFits(r) && |RuleBytes(r)| <= 0xffff_ffff }

  lemma {:induction false} RulesWritten(recs: Option<seq<Record>>, rs: seq<Rule>)
    ensures WriteRules(recs, rs).Some? <==> recs.Some? && forall r :: r in rs ==> RuleWritable(r)
    decreases |rs|
  {
    hide RuleFits, RuleBytes;
    if rs != [] {
      assert forall r :: r in rs <==> r == rs[0] || r in rs[1..];
      var next := Written(recs, RULE_ADDED, EncodeRule(rs[0]));
      assert next.Some? <==> recs.Some? && RuleWritable(rs[0]);
      RulesWritten(next, rs[1..]);
    }
  }

  /** Compaction returns no error exactly if every belief, derived ones included,
      every resolution and every rule can be written. */
  lemma CompactsExactlyWhatFits(st: State)
    ensures Compacted(st).Some? <==>
            && (forall b :: b in st.beliefs ==> EncodeBelief(b).Some?)
            && (forall r :: r in st.resolutions.Values ==> EncodeResolution(r).Some?)
            && (forall r :: r in st.rules ==> RuleWritable(r))
  {
    hide EncodeBelief, EncodeResolution, RuleWritable, RulesSnapshot;
    var bs, rs := CanonicalBeliefs(st), CanonicalResolutions(st);
    SortSorts(Listing(st.beliefs), CanonicalOrder);
    SortSorts(Listing(st.resolutions.Values), ResolutionOrder);
    SnapshotIdempotent(st.rules);
    BeliefsWritten(Some([]), bs);
    ResolutionsWritten(WriteBeliefs(Some([]), bs), rs);
    RulesWritten(WriteResolutions(WriteBeliefs(Some([]), bs), rs), RulesSnapshot(st.rules));
    assert forall b :: b in bs <==> b in st.beliefs;
    assert forall r :: r in rs <==> r in st.resolutions.Values;
  }

  // ---------- the comparators are total where the engine uses them

  lemma CanonicalOrderInjective(b: Belief, c: Belief)
    requires CleanAtom(b.atom) && CleanAtom(c.atom) && CanonicalOrder(b) == CanonicalOrder(c)
    ensures b == c
  {
    var k, m := CanonicalOrder(b), CanonicalOrder(c);
    assert k[0] == m[0] && k[1] == m[1] && k[2] == m[2] && k[3] == m[3];
    assert k[1][0] == m[1][0] && k[2][0] == m[2][0];
    AtomKeyInjective(b.atom, c.atom);
  }

  lemma {:induction false} PremiseKeysInjective(ps: seq<Pattern>, k: Key, qs: seq<Pattern>, m: Key)
    requires PremiseKeys(ps) + k == PremiseKeys(qs) + m
    ensures ps == qs && k == m
    decreases |ps|
  {
    var a, b := PremiseKeys(ps) + k, PremiseKeys(qs) + m;
    assert a[0] == PremiseKeys(ps)[0] && b[0] == PremiseKeys(qs)[0];
    assert a[0][0] == b[0][0];
    if ps == [] {
      assert k == a[1..] && m == b[1..];
    } else {
      assert a[4..] == PremiseKeys(ps[1..]) + k && b[4..] == PremiseKeys(qs[1..]) + m;
      assert ps[0] == Triple(ps[0].from, ps[0].pred, ps[0].to);
      assert a[1] == ps[0].from && a[2] == ps[0].pred && a[3] == ps[0].to;
      assert b[1] == qs[0].from && b[2] == qs[0].pred && b[3] == qs[0].to;
      PremiseKeysInjective(ps[1..], k, qs[1..], m);
      assert ps == [ps[0]] + ps[1..] && qs == [qs[0]] + qs[1..];
    }
  }

  lemma RuleOrderInjective(r: Rule, q: Rule)
    requires RuleOrder(r) == RuleOrder(q)
    ensures r == q
  {
    var k := [r.conclusion.from, r.conclusion.pred, r.conclusion.to];
    var m := [q.conclusion.from, q.conclusion.pred, q.conclusion.to];
    assert RuleOrder(r) == [r.name] + (PremiseKeys(r.premises) + k);
    assert RuleOrder(q) == [q.name] + (PremiseKeys(q.premises) + m);
    assert RuleOrder(r)[0] == r.name && RuleOrder(q)[0] == q.name;
    assert RuleOrder(r)[1..] == PremiseKeys(r.premises) + k && RuleOrder(q)[1..] == PremiseKeys(q.premises) + m;
    PremiseKeysInjective(r.premises, k, q.premises, m);
    assert k[0] == m[0] && k[1] == m[1] && k[2] == m[2];
  }

  // ---------- the canonical order, spelled out

  /** By joined atom key, polarity, time and source. */
  ghost predicate BeliefBefore(b: Belief, c: Belief)
  {
    || ComesBefore(AtomKey(b.atom), AtomKey(c.atom))
    || (AtomKey(b.atom) == AtomKey(c.atom) && b.polarity < c.polarity)
    || (AtomKey(b.atom) == AtomKey(c.atom) && b.polarity == c.polarity && b.unixNano < c.unixNano)
    || (AtomKey(b.atom) == AtomKey(c.atom) && b.polarity == c.polarity && b.unixNano == c.unixNano
        && ComesBefore(b.source, c.source))
  }

  lemma NumbersBefore(x: int, y: int)
    ensures ComesBefore([x], [y]) <==> x < y
  {
    FieldLessMeans([x], [y]);
    assert [x][1..] == [] && [y][1..] == [];
  }

  lemma CanonicalOrderMeans(b: Belief, c: Belief)
    ensures KeyLess(CanonicalOrder(b), CanonicalOrder(c)) <==> BeliefBefore(b, c)
  {
    hide ComesBefore, AtomKey;
    var k, m := [[b.unixNano], b.source], [[c.unixNano], c.source];
    KeyLessCons(AtomKey(b.atom), [[b.polarity]] + k, AtomKey(c.atom), [[c.polarity]] + m);
    KeyLessCons([b.polarity], k, [c.polarity], m);
    KeyLessTwo([b.unixNano], b.source, [c.unixNano], c.source);
    NumbersBefore(b.polarity, c.polarity);
    NumbersBefore(b.unixNano, c.unixNano);
    assert [b.polarity][0] == b.polarity && [c.polarity][0] == c.polarity;
    assert [b.unixNano][0] == b.unixNano && [c.unixNano][0] == c.unixNano;
    assert [AtomKey(b.atom)] + ([[b.polarity]] + k) == CanonicalOrder(b);
    assert [AtomKey(c.atom)] + ([[c.polarity]] + m) == CanonicalOrder(c);
  }

  /** Premise by premise; of two lists of which one begins the other, the shorter. */
  ghost predicate PremisesBefore(ps: seq<Pattern>, qs: seq<Pattern>)
    decreases |ps|
  {
    qs != [] && (ps == [] || AtomBefore(ps[0], qs[0]) || (ps[0] == qs[0] && PremisesBefore(ps[1..], qs[1..])))
  }

  /** By name, premises and conclusion. */
  ghost predicate RuleBefore(r: Rule, q: Rule)
  {
    || ComesBefore(r.name, q.name)
    || (r.name == q.name && PremisesBefore(r.premises, q.premises))
    || (r.name == q.name && r.premises == q.premises && AtomBefore(r.conclusion, q.conclusion))
  }

  lemma {:induction false} PremiseKeysMean(ps: seq<Pattern>, k: Key, qs: seq<Pattern>, m: Key)
    ensures KeyLess(PremiseKeys(ps) + k, PremiseKeys(qs) + m) <==> PremisesBefore(ps, qs) || (ps == qs && KeyLess(k, m))
    decreases |ps|
  {
    hide AtomBefore, ComesBefore, KeyLess;
    var s := if ps == [] then k else [ps[0].from, ps[0].pred, ps[0].to] + (PremiseKeys(ps[1..]) + k);
    var t := if qs == [] then m else [qs[0].from, qs[0].pred, qs[0].to] + (PremiseKeys(qs[1..]) + m);
    var u, v := if ps == [] then 0 else 1, if qs == [] then 0 else 1;
    assert PremiseKeys(ps) + k == [[u]] + s && PremiseKeys(qs) + m == [[v]] + t;
    NumbersBefore(u, v);
    KeyLessCons([u], s, [v], t);
    assert [u][0] == u && [v][0] == v;
    if ps != [] && qs != [] {
      PrefixedOrder(ps[0], PremiseKeys(ps[1..]) + k, qs[0], PremiseKeys(qs[1..]) + m);
      PremiseKeysMean(ps[1..], k, qs[1..], m);
      assert ps == [ps[0]] + ps[1..] && qs == [qs[0]] + qs[1..];
    }
  }

  lemma RuleOrderMeans(r: Rule, q: Rule)
    ensures KeyLess(RuleOrder(r), RuleOrder(q)) <==> RuleBefore(r, q)
  {
    hide AtomBefore, ComesBefore, KeyLess;
    var k, m := AtomOrder(r.conclusion), AtomOrder(q.conclusion);
    assert RuleOrder(r) == [r.name] + (PremiseKeys(r.premises) + k);
    assert RuleOrder(q) == [q.name] + (PremiseKeys(q.premises) + m);
    KeyLessCons(r.name, PremiseKeys(r.premises) + k, q.name, PremiseKeys(q.premises) + m);
    PremiseKeysMean(r.premises, k, q.premises, m);
    AtomOrderMeans(r.conclusion, q.conclusion);
  }

  // ---------- what a compacted log holds

  lemma {:induction false} BeliefRecords(recs: seq<Record>, bs: seq<Belief>)
    requires WriteBeliefs(Some(recs), bs).Some?
    ensures var w := WriteBeliefs(Some(recs), bs).value;
            && |w| == |recs| + |bs| && w[..|recs|] == recs
            && forall i :: 0 <= i < |bs| ==>
                 EncodeBelief(bs[i]).Some? && w[|recs| + i] == Record(1, EncodeBelief(bs[i]).value)
    decreases |bs|
  {
    hide EncodeBelief;
    if bs != [] {
      BeliefsWritten(Written(Some(recs), FACT_ADDED, EncodeBelief(bs[0])), bs[1..]);
      var next := Written(Some(recs), FACT_ADDED, EncodeBelief(bs[0])).value;
      BeliefRecords(next, bs[1..]);
      var w := WriteBeliefs(Some(recs), bs).value;
      assert w[|recs|] == w[..|next|][|recs|] && w[..|recs|] == w[..|next|][..|recs|];
      forall i | 0 <= i < |bs| ensures EncodeBelief(bs[i]).Some? && w[|recs| + i] == Record(1, EncodeBelief(bs[i]).value) {
        if i > 0 { assert bs[i] == bs[1..][i - 1] && |recs| + i == |next| + (i - 1); }
      }
    }
  }

  lemma {:induction false} ResolutionRecords(recs: seq<Record>, rs: seq<Resolution>)
    requires WriteResolutions(Some(recs), rs).Some?
    ensures var w := WriteResolutions(Some(recs), rs).value;
            && |w| == |recs| + |rs| && w[..|recs|] == recs
            && forall i :: 0 <= i < |rs| ==>
                 EncodeResolution(rs[i]).Some? && w[|recs| + i] == Record(2, EncodeResolution(rs[i]).value)
    decreases |rs|
  {
    hide EncodeResolution;
    if rs != [] {
      ResolutionsWritten(Written(Some(recs), RESOLUTION_SET, EncodeResolution(rs[0])), rs[1..]);
      var next := Written(Some(recs), RESOLUTION_SET, EncodeResolution(rs[0])).value;
      ResolutionRecords(next, rs[1..]);
      var w := WriteResolutions(Some(recs), rs).value;
      assert w[|recs|] == w[..|next|][|recs|] && w[..|recs|] == w[..|next|][..|recs|];
      forall i | 0 <= i < |rs|
        ensures EncodeResolution(rs[i]).Some? && w[|recs| + i] == Record(2, EncodeResolution(rs[i]).value)
      {
        if i > 0 { assert rs[i] == rs[1..][i - 1] && |recs| + i == |next| + (i - 1); }
      }
    }
  }

  lemma {:induction false} RuleRecords(recs: seq<Record>, rs: seq<Rule>)
    requires WriteRules(Some(recs), rs).Some?
    ensures var w := WriteRules(Some(recs), rs).value;
            && |w| == |recs| + |rs| && w[..|recs|] == recs
            && forall i :: 0 <= i < |rs| ==> EncodeRule(rs[i]).Some? && w[|recs| + i] == Record(3, EncodeRule(rs[i]).value)
    decreases |rs|
  {
    hide EncodeRule, RuleWritable;
    if rs != [] {
      RulesWritten(Written(Some(recs), RULE_ADDED, EncodeRule(rs[0])), rs[1..]);
      var next := Written(Some(recs), RULE_ADDED, EncodeRule(rs[0])).value;
      RuleRecords(next, rs[1..]);
      var w := WriteRules(Some(recs), rs).value;
      assert w[|recs|] == w[..|next|][|recs|] && w[..|recs|] == w[..|next|][..|recs|];
      forall i | 0 <= i < |rs| ensures EncodeRule(rs[i]).Some? && w[|recs| + i] == Record(3, EncodeRule(rs[i]).value) {
        if i > 0 { assert rs[i] == rs[1..][i - 1] && |recs| + i == |next| + (i - 1); }
      }
    }
  }

  /** Sorting rules twice is sorting them once. */
  lemma SnapshotIdempotent(rules: seq<Rule>)
    ensures RulesSnapshot(RulesSnapshot(rules)) == RulesSnapshot(rules)
    ensures forall r :: r in RulesSnapshot(rules) <==> r in rules
  {
    var s := RulesSnapshot(rules);
    SortSorts(rules, RuleOrder);
    SortSorts(s, RuleOrder);
    forall x, y | x in s && y in s && RuleOrder(x) == RuleOrder(y) ensures x == y { RuleOrderInjective(x, y); }
    SortUnique(s, RulesSnapshot(s), RuleOrder);
  }

  lemma SortedBeliefs(st: State)
    ensures var bs := CanonicalBeliefs(st);
            && |bs| == |st.beliefs| && (forall b :: b in bs <==> b in st.beliefs)
            && forall i, j :: 0 <= i < j < |bs| ==> !BeliefBefore(bs[j], bs[i])
  {
    hide KeyLess, CanonicalOrder, BeliefBefore;
    var bs := CanonicalBeliefs(st);
    SortSorts(Listing(st.beliefs), CanonicalOrder);
    forall i, j | 0 <= i < j < |bs| ensures !BeliefBefore(bs[j], bs[i]) { CanonicalOrderMeans(bs[j], bs[i]); }
  }

  lemma SortedResolutions(st: State)
    ensures var rs := CanonicalResolutions(st);
            && |rs| == |st.resolutions.Values| && (forall r :: r in rs <==> r in st.resolutions.Values)
            && forall i, j :: 0 <= i < j < |rs| ==> !ResolutionBefore(rs[j], rs[i])
  {
    hide KeyLess, CanonicalOrder, BeliefBefore;
    var rs := CanonicalResolutions(st);
    SortSorts(Listing(st.resolutions.Values), ResolutionOrder);
    forall i, j | 0 <= i < j < |rs| ensures !ResolutionBefore(rs[j], rs[i]) {
      CanonicalOrderMeans(AsBelief(rs[j]), AsBelief(rs[i]));
    }
  }

  lemma SortedRules(rules: seq<Rule>)
    ensures var qs := RulesSnapshot(rules);
            multiset(qs) == multiset(rules) && forall i, j :: 0 <= i < j < |qs| ==> !RuleBefore(qs[j], qs[i])
  {
    hide KeyLess, RuleOrder, RuleBefore;
    var qs := RulesSnapshot(rules);
    SortSorts(rules, RuleOrder);
    forall i, j | 0 <= i < j < |qs| ensures !RuleBefore(qs[j], qs[i]) { RuleOrderMeans(qs[j], qs[i]); }
  }

  ghost predicate ResolutionBefore(r: Resolution, q: Resolution)
  {
    BeliefBefore(Belief(r.atom, r.polarity, r.source, r.unixNano), Belief(q.atom, q.polarity, q.source, q.unixNano))
  }

  /** A compacted log holds every belief once, then every resolution once, then the
      rules as often as they were added, each kind in its order. */
  lemma CompactedLog(st: State, recs: seq<Record>) returns (bs: seq<Belief>, rs: seq<Resolution>, qs: seq<Rule>)
    requires Compacted(st) == Some(recs)
    ensures |bs| == |st.beliefs| && forall b :: b in bs <==> b in st.beliefs
    ensures |rs| == |st.resolutions.Values| && forall r :: r in rs <==> r in st.resolutions.Values
    ensures multiset(qs) == multiset(st.rules)
    ensures forall i, j :: 0 <= i < j < |bs| ==> !BeliefBefore(bs[j], bs[i])
    ensures forall i, j :: 0 <= i < j < |rs| ==> !ResolutionBefore(rs[j], rs[i])
    ensures forall i, j :: 0 <= i < j < |qs| ==> !RuleBefore(qs[j], qs[i])
    ensures |recs| == |bs| + |rs| + |qs|
    ensures forall i :: 0 <= i < |bs| ==> EncodeBelief(bs[i]).Some? && recs[i] == Record(1, EncodeBelief(bs[i]).value)
    ensures forall i :: 0 <= i < |rs| ==>
              EncodeResolution(rs[i]).Some? && recs[|bs| + i] == Record(2, EncodeResolution(rs[i]).value)
    ensures forall i :: 0 <= i < |qs| ==>
              EncodeRule(qs[i]).Some? && recs[|bs| + |rs| + i] == Record(3, EncodeRule(qs[i]).value)
  {
    hide EncodeBelief, EncodeResolution, EncodeRule, BeliefBefore, RuleBefore, ResolutionBefore, CanonicalBeliefs,
         CanonicalResolutions, RulesSnapshot, RuleWritable, WriteBeliefs, WriteResolutions, WriteRules;
    bs, rs, qs := CanonicalBeliefs(st), CanonicalResolutions(st), RulesSnapshot(st.rules);
    SortedBeliefs(st);
    SortedResolutions(st);
    SortedRules(st.rules);
    var one := WriteBeliefs(Some([]), bs);
    var two := WriteResolutions(one, rs);
    RulesWritten(two, qs);
    ResolutionsWritten(one, rs);
    BeliefRecords([], bs);
    ResolutionRecords(one.value, rs);
    RuleRecords(two.value, qs);
    forall k | 0 <= k < |two.value| ensures recs[k] == two.value[k] { assert recs[..|two.value|][k] == two.value[k]; }
    forall k | 0 <= k < |bs| ensures recs[k] == one.value[k] { assert two.value[..|bs|][k] == one.value[k]; }
  }

  // ---------- what was written reads back

  /** Reading `recs` gives `st`, up to graph and log. */
  ghost predicate Reads(recs: Option<seq<Record>>, beliefs: set<Belief>, resolutions: map<Atom, Resolution>,
        rules: seq<Rule>)
  {
    recs.Some? ==>
      && ReadLog(recs.value).Some?
      && ReadLog(recs.value).value.beliefs == beliefs
      && ReadLog(recs.value).value.resolutions == resolutions
      && ReadLog(recs.value).value.rules == rules
  }

  lemma WrittenBeliefReads(recs: Option<seq<Record>>, b: Belief, done: set<Belief>)
    requires Reads(recs, done, map[], []) && ValidBelief(b)
    ensures Reads(Written(recs, FACT_ADDED, EncodeBelief(b)), done + {b}, map[], [])
  {
    if Written(recs, FACT_ADDED, EncodeBelief(b)).Some? { FactRead(recs.value, b, EncodeBelief(b).value); }
  }

  lemma {:induction false} WrittenBeliefsRead(recs: Option<seq<Record>>, bs: seq<Belief>, done: set<Belief>)
    requires Reads(recs, done, map[], []) && forall b :: b in bs ==> ValidBelief(b)
    ensures Reads(WriteBeliefs(recs, bs), done + (set b | b in bs), map[], [])
    decreases |bs|
  {
    hide Reads, Written, EncodeBelief, ValidBelief;
    if bs != [] {
      WrittenBeliefReads(recs, bs[0], done);
      assert bs == [bs[0]] + bs[1..];
      assert done + {bs[0]} + (set b | b in bs[1..]) == done + (set b | b in bs);
      WrittenBeliefsRead(Written(recs, FACT_ADDED, EncodeBelief(bs[0])), bs[1..], done + {bs[0]});
    } else {
      assert done + (set b | b in bs) == done;
    }
  }

  ghost function Resolved(m: map<Atom, Resolution>, rs: seq<Resolution>): map<Atom, Resolution>
    decreases |rs|
  {
    if rs == [] then m else Resolved(m[rs[0].atom := rs[0]], rs[1..])
  }

  lemma {:induction false} WrittenResolutionsRead(recs: Option<seq<Record>>, rs: seq<Resolution>,
        beliefs: set<Belief>, done: map<Atom, Resolution>)
    requires Reads(recs, beliefs, done, []) && forall r :: r in rs ==> ValidResolution(r)
    ensures Reads(WriteResolutions(recs, rs), beliefs, Resolved(done, rs), [])
    decreases |rs|
  {
    if rs != [] {
      var next := Written(recs, RESOLUTION_SET, EncodeResolution(rs[0]));
      if next.Some? { ResolutionRead(recs.value, rs[0], EncodeResolution(rs[0]).value); }
      assert forall r :: r in rs[1..] ==> r in rs;
      WrittenResolutionsRead(next, rs[1..], beliefs, done[rs[0].atom := rs[0]]);
    }
  }

  lemma WrittenRuleReads(recs: Option<seq<Record>>, r: Rule, beliefs: set<Belief>,
        resolutions: map<Atom, Resolution>, done: seq<Rule>)
    requires Reads(recs, beliefs, resolutions, done) && r.conclusion.to != []
    ensures Reads(Written(recs, RULE_ADDED, EncodeRule(r)), beliefs, resolutions, done + [r])
  {
    hide ReadLog;
    if Written(recs, RULE_ADDED, EncodeRule(r)).Some? { RuleRead(recs.value, r, EncodeRule(r).value); }
  }

  lemma {:induction false} WrittenRulesRead(recs: Option<seq<Record>>, rs: seq<Rule>, beliefs: set<Belief>,
                                            resolutions: map<Atom, Resolution>, done: seq<Rule>)
    requires Reads(recs, beliefs, resolutions, done) && HasObjects(rs)
    ensures Reads(WriteRules(recs, rs), beliefs, resolutions, done + rs)
    decreases |rs|
  {
    hide Reads, Written, EncodeRule;
    if rs != [] {
      var next := Written(recs, RULE_ADDED, EncodeRule(rs[0]));
      WrittenRuleReads(recs, rs[0], beliefs, resolutions, done);
      WrittenRulesRead(next, rs[1..], beliefs, resolutions, done + [rs[0]]);
      assert done + [rs[0]] + rs[1..] == done + rs;
    } else {
      assert done + rs == done;
    }
  }

  lemma {:induction false} ResolvedHolds(m: map<Atom, Resolution>, rs: seq<Resolution>)
    requires forall r, q :: r in rs && q in rs && r.atom == q.atom ==> r == q
    ensures forall a :: a in Resolved(m, rs) <==> a in m || exists r :: r in rs && r.atom == a
    ensures forall r :: r in rs ==> r.atom in Resolved(m, rs) && Resolved(m, rs)[r.atom] == r
    ensures forall a :: a in m && (forall r :: r in rs ==> r.atom != a) ==> Resolved(m, rs)[a] == m[a]
    decreases |rs|
  {
    if rs != [] {
      var r0, rest := rs[0], rs[1..];
      assert forall r :: r in rs <==> r == r0 || r in rest;
      ResolvedHolds(m[r0.atom := r0], rest);
      if exists r :: r in rest && r.atom == r0.atom {
        assert r0 in rest;
      }
    }
  }

  /** Every resolution, once. */
  ghost predicate ListsAll(rs: seq<Resolution>, m: map<Atom, Resolution>)
  {
    && (forall r :: r in rs ==> r.atom in m && m[r.atom] == r)
    && (forall a :: a in m ==> m[a] in rs && m[a].atom == a)
  }

  lemma ResolutionsListed(st: State)
    requires KeyedResolutions(st)
    ensures ListsAll(CanonicalResolutions(st), st.resolutions)
  {
    SortSorts(Listing(st.resolutions.Values), ResolutionOrder);
    forall r | r in CanonicalResolutions(st) ensures r.atom in st.resolutions && st.resolutions[r.atom] == r {
      var a :| a in st.resolutions && st.resolutions[a] == r;
    }
  }

  lemma ListRestores(rs: seq<Resolution>, m: map<Atom, Resolution>)
    requires ListsAll(rs, m)
    ensures Resolved(map[], rs) == m
  {
    ResolvedHolds(map[], rs);
    forall a | a in m ensures a in Resolved(map[], rs) && Resolved(map[], rs)[a] == m[a] {
      assert m[a] in rs;
    }
  }

  /** The state a compacted log stands for: the same, with its rules in order. */
  ghost function Reordered(st: State, recs: seq<Record>): State
  {
    st.(rules := RulesSnapshot(st.rules), log := Some(recs))
  }

  lemma WrittenReads(bs: seq<Belief>, rs: seq<Resolution>, rules: seq<Rule>)
    requires (forall b :: b in bs ==> ValidBelief(b)) && (forall r :: r in rs ==> ValidResolution(r)) && HasObjects(rules)
    ensures Reads(WriteRules(WriteResolutions(WriteBeliefs(Some([]), bs), rs), rules),
                  (set b | b in bs), Resolved(map[], rs), rules)
  {
    var start: Option<seq<Record>> := Some([]);
    assert ReadLog([]) == Some(NewEngine(Some([])));
    WrittenBeliefsRead(start, bs, {});
    assert {} + (set b | b in bs) == (set b | b in bs);
    WrittenResolutionsRead(WriteBeliefs(start, bs), rs, (set b | b in bs), map[]);
    WrittenRulesRead(WriteResolutions(WriteBeliefs(start, bs), rs), rules, (set b | b in bs), Resolved(map[], rs), []);
    assert [] + rules == rules;
  }

  lemma CompactedReads(st: State)
    requires Invariant(st) && HasObjects(st.rules)
    ensures Reads(Compacted(st), st.beliefs, st.resolutions, RulesSnapshot(st.rules))
  {
    hide Reads, CanonicalOrder, ResolutionOrder, RulesSnapshot, WriteBeliefs, WriteResolutions, WriteRules, Sort, ListsAll, Resolved, Sorted;
    var bs, rs := CanonicalBeliefs(st), CanonicalResolutions(st);
    SortSorts(Listing(st.beliefs), CanonicalOrder);
    SnapshotIdempotent(st.rules);
    ResolutionsListed(st);
    ListRestores(rs, st.resolutions);
    assert (set b | b in bs) == st.beliefs;
    WrittenReads(bs, rs, RulesSnapshot(st.rules));
  }

  /** A rule that cannot be read back spoils all that is written from it on. */
  lemma {:induction false} WrittenRulesUnread(recs: Option<seq<Record>>, rs: seq<Rule>)
    requires !HasObjects(rs) || (recs.Some? && ReadLog(recs.value).None?)
    ensures WriteRules(recs, rs).Some? ==> ReadLog(WriteRules(recs, rs).value).None?
    decreases |rs|
  {
    hide ReadLog;
    if rs != [] {
      var next := Written(recs, RULE_ADDED, EncodeRule(rs[0]));
      if next.None? {
        WriteNothing(rs[1..]);
      } else {
        RuleRead(recs.value, rs[0], EncodeRule(rs[0]).value);
        assert forall r :: r in rs <==> r == rs[0] || r in rs[1..];
        WrittenRulesUnread(next, rs[1..]);
      }
    }
  }

  lemma {:induction false} WriteNothing(rs: seq<Rule>)
    ensures WriteRules(None, rs) == None
    decreases |rs|
  {
    if rs != [] { WriteNothing(rs[1..]); }
  }

  /** Compaction reports success for a rule without a conclusion object, and the
      log it wrote can never be replayed; no bound or invariant matters here. */
  lemma CompactionCanLoseAll(st: State, recs: seq<Record>)
    requires !HasObjects(st.rules) && Compacted(st) == Some(recs)
    ensures ReplayFromLog(NewEngine(Some(recs))) == None
  {
    hide RulesSnapshot, WriteRules, WriteResolutions, WriteBeliefs, CanonicalBeliefs, CanonicalResolutions;
    SnapshotIdempotent(st.rules);
    WrittenRulesUnread(WriteResolutions(WriteBeliefs(Some([]), CanonicalBeliefs(st)), CanonicalResolutions(st)), RulesSnapshot(st.rules));
  }

  /** The engine that was given such a rule and nothing else compacts all the same. */
  lemma CompactsUnreadably() returns (st: State, recs: seq<Record>)
    ensures Run(NewEngine(Some([])), [OpAddRule(EMPTY_OBJECT)]) == Some(st)
    ensures Compacted(st) == Some(recs) && ReplayFromLog(NewEngine(Some(recs))) == None
  {
    hide Run, ReplayFromLog, RuleBytes;
    st := UnreadableLog();
    NothingFromNothing(st);
    SmallRule(EMPTY_OBJECT);
    recs := [Record(RULE_ADDED, RuleBytes(EMPTY_OBJECT))];
    CompactsOneRule(st, EMPTY_OBJECT);
    CompactionCanLoseAll(st, recs);
  }

  lemma SnapshotOfOne(r: Rule)
    ensures RulesSnapshot([r]) == [r]
  {
    SnapshotIdempotent([r]);
    SortSorts([r], RuleOrder);
    var s := RulesSnapshot([r]);
    assert |s| == 1 && s[0] in s;
  }

  lemma CompactsOneRule(st: State, r: Rule)
    requires st.beliefs == {} && st.resolutions == map[] && st.rules == [r]
    requires RuleFits(r) && |RuleBytes(r)| <= 0xffff_ffff
    ensures Compacted(st) == Some([Record(RULE_ADDED, RuleBytes(r))])
  {
    hide RuleBytes, RuleFits, RulesSnapshot;
    var beliefs, resolutions := Listing(st.beliefs), Listing(st.resolutions.Values);
    assert |beliefs| == 0;
    assert |resolutions| == |st.resolutions.Values|;
    assert st.resolutions.Values == {};
    assert CanonicalBeliefs(st) == Sort(beliefs, CanonicalOrder) == [];
    assert CanonicalResolutions(st) == Sort(resolutions, ResolutionOrder) == [];
    assert [r][0] == r && [r][1..] == [];
    SnapshotOfOne(r);
    var none: Option<seq<Record>> := Some([]);
    assert WriteResolutions(WriteBeliefs(none, CanonicalBeliefs(st)), CanonicalResolutions(st)) == none;
    var one := Written(none, RULE_ADDED, EncodeRule(r));
    assert [] + [Record(RULE_ADDED, RuleBytes(r))] == [Record(RULE_ADDED, RuleBytes(r))];
    assert one == Some([Record(RULE_ADDED, RuleBytes(r))]);
    assert WriteRules(none, [r]) == WriteRules(one, []) == one;
  }

  /** Replaying a compacted log rebuilds the state with its rules in canonical
      order, derived beliefs written, dropped and derived again, if every rule
      has a conclusion object, and fails otherwise. */
  lemma CompactionRestores(st: State, recs: seq<Record>)
    requires Invariant(st) && Saturated(st) && Bounded(ProgramOf(st), CAP)
    requires Compacted(st) == Some(recs)
    ensures ReplayFromLog(NewEngine(Some(recs))) == if HasObjects(st.rules) then Some(Reordered(st, recs)) else None
  {
    hide Compacted, RulesSnapshot;
    if HasObjects(st.rules) { RestoredWithObjects(st, recs); } else { CompactionCanLoseAll(st, recs); }
  }

  lemma RestoredWithObjects(st: State, recs: seq<Record>)
    requires Invariant(st) && Saturated(st) && Bounded(ProgramOf(st), CAP) && HasObjects(st.rules)
    requires Compacted(st) == Some(recs)
    ensures ReplayFromLog(NewEngine(Some(recs))) == Some(Reordered(st, recs))
  {
    CompactedReads(st);
    var read := ReadLog(recs).value;
    ReplayKeepsLog(NewEngine(Some(recs)), recs);
    SnapshotIdempotent(st.rules);
    assert CleanState(read);
    StrippedSound(read);
    StrippedTold(read);
    SameProgram(Stripped(read), st);
    ApplyRulesExact(Stripped(read), CAP);
    SaturatedIsUnique(Recompute(read), st);
  }

  /** Exactly then compaction preserves every answer and every proof, and
      compacting the result again writes the same records. */
  lemma CompactionPreservesMeaning(st: State, recs: seq<Record>)
    requires Invariant(st) && Saturated(st) && Bounded(ProgramOf(st), CAP)
    requires Compacted(st) == Some(recs)
    ensures ReplayFromLog(NewEngine(Some(recs))).Some? <==> HasObjects(st.rules)
    ensures HasObjects(st.rules) ==>
              && (forall a :: Evaluate(ReplayFromLog(NewEngine(Some(recs))).value, a) == Evaluate(st, a))
              && Compacted(ReplayFromLog(NewEngine(Some(recs))).value) == Some(recs)
  {
    hide Evaluate, Compacted, ReplayFromLog, HasObjects, Invariant, Saturated, Bounded, Reordered;
    CompactionRestores(st, recs);
    ReorderedAnswers(st, recs);
  }

  lemma ReorderedAnswers(st: State, recs: seq<Record>)
    ensures forall a :: Evaluate(Reordered(st, recs), a) == Evaluate(st, a)
    ensures Compacted(Reordered(st, recs)) == Compacted(st)
  {
    hide RulesSnapshot, Sort, Listing, WriteBeliefs, WriteResolutions, WriteRules, Believed, ProofsOf;
    SnapshotIdempotent(st.rules);
    assert CanonicalBeliefs(Reordered(st, recs)) == CanonicalBeliefs(st);
    assert CanonicalResolutions(Reordered(st, recs)) == CanonicalResolutions(st);
  }
}
