/** The meaning of a set of facts, rules and denials: the least fixpoint, told
    through finite proof trees.  Nothing here knows how the engine computes it. */
module Datalog {
  import opened Order
  import opened Facts
  import opened Rules

  /** What callers asserted: positive facts, atoms resolved false, rules. */
  datatype Program = Program(facts: set<Atom>, denied: set<Atom>, rules: set<Rule>)

  datatype ProofTree =
    | Fact(atom: Atom)
    | Inference(atom: Atom, rule: Rule, premises: seq<ProofTree>)

  ghost function Roots(ts: seq<ProofTree>): (r: seq<Atom>)
    ensures |r| == |ts| && forall i :: 0 <= i < |ts| ==> r[i] == ts[i].atom
  {
    seq(|ts|, i requires 0 <= i < |ts| => ts[i].atom)
  }

  /** May enter the graph: no empty field, not resolved false. */
  ghost predicate Admissible(p: Program, a: Atom) { ValidAtom(a) && a !in p.denied }

  ghost predicate ValidTree(p: Program, t: ProofTree)
  {
    Admissible(p, t.atom) &&
    match t
    case Fact(a) => a in p.facts
    case Inference(a, r, ts) =>
      r in p.rules && Fire(r, Roots(ts)) == Some(a) && forall i :: 0 <= i < |ts| ==> ValidTree(p, ts[i])
  }

  ghost predicate Provable(p: Program, a: Atom)
  {
    exists t :: ValidTree(p, t) && t.atom == a
  }

  ghost predicate Within(es: seq<Atom>, s: set<Atom>) { forall e :: e in es ==> e in s }

  /** Holds the admissible facts and everything a rule concludes from it. */
  ghost predicate Closed(p: Program, s: set<Atom>)
  {
    && (forall a :: a in p.facts && Admissible(p, a) ==> a in s)
    && (forall r, es :: r in p.rules && Within(es, s) && Fire(r, es).Some? && Admissible(p, Fire(r, es).value)
          ==> Fire(r, es).value in s)
  }

  // ---------- the least fixpoint is a finite set

  ghost function Names(p: Program): set<Str>
  {
    (set a, f | a in p.facts && f in Fields(a) :: f) +
    (set r, f | r in p.rules && f in Fields(r.conclusion) :: f)
  }

  ghost function Cube(names: set<Str>): set<Atom>
  {
    set f, q, t | f in names && q in names && t in names :: Triple(f, q, t)
  }

  lemma {:induction false} TreeInCube(p: Program, t: ProofTree)
    requires ValidTree(p, t)
    ensures t.atom in Cube(Names(p))
  {
    assert t.atom == Triple(t.atom.from, t.atom.pred, t.atom.to);
    forall f | f in Fields(t.atom) ensures f in Names(p) {
      match t {
        case Fact(a) => assert a in p.facts && f in Fields(a);
        case Inference(a, r, ts) =>
          FireFields(r, Roots(ts), f);
          if f in AllFields(Roots(ts)) {
            var e :| e in Roots(ts) && f in Fields(e);
            var i :| 0 <= i < |ts| && Roots(ts)[i] == e;
            TreeInCube(p, ts[i]);
            assert e in Cube(Names(p));
          } else {
            assert r in p.rules && f in Fields(r.conclusion);
          }
      }
    }
    assert t.atom.from in Fields(t.atom) && t.atom.pred in Fields(t.atom) && t.atom.to in Fields(t.atom);
  }

  /** The provable atoms. */
  ghost function Lfp(p: Program): (s: set<Atom>)
    ensures forall a :: a in s <==> Provable(p, a)
  {
    forall a | Provable(p, a) ensures a in Cube(Names(p)) {
      var t :| ValidTree(p, t) && t.atom == a;
      TreeInCube(p, t);
    }
    set a | a in Cube(Names(p)) && Provable(p, a)
  }

  ghost function TreeOf(p: Program, a: Atom): (t: ProofTree)
    requires Provable(p, a)
    ensures ValidTree(p, t) && t.atom == a
  {
    var t :| ValidTree(p, t) && t.atom == a; t
  }

  lemma LfpStep(p: Program, r: Rule, es: seq<Atom>)
    requires r in p.rules && Within(es, Lfp(p)) && Fire(r, es).Some? && Admissible(p, Fire(r, es).value)
    ensures Fire(r, es).value in Lfp(p)
  {
    assert forall i :: 0 <= i < |es| ==> es[i] in es;
    var ts := seq(|es|, i requires 0 <= i < |es| => TreeOf(p, es[i]));
    assert Roots(ts) == es;
    var t := Inference(Fire(r, es).value, r, ts);
    assert ValidTree(p, t);
  }

  lemma LfpClosed(p: Program)
    ensures Closed(p, Lfp(p))
  {
    forall a | a in p.facts && Admissible(p, a) ensures a in Lfp(p) {
      assert ValidTree(p, Fact(a));
    }
    forall r, es | r in p.rules && Within(es, Lfp(p)) && Fire(r, es).Some? && Admissible(p, Fire(r, es).value)
      ensures Fire(r, es).value in Lfp(p)
    {
      LfpStep(p, r, es);
    }
  }

  lemma {:induction false} TreeInClosed(p: Program, s: set<Atom>, t: ProofTree)
    requires Closed(p, s) && ValidTree(p, t)
    ensures t.atom in s
  {
    match t {
      case Fact(_) =>
      case Inference(a, r, ts) =>
        forall e | e in Roots(ts) ensures e in s {
          var i :| 0 <= i < |ts| && Roots(ts)[i] == e;
          TreeInClosed(p, s, ts[i]);
        }
        assert Within(Roots(ts), s);
    }
  }

  /** No closed set is smaller. */
  lemma LfpLeast(p: Program, s: set<Atom>)
    requires Closed(p, s)
    ensures Lfp(p) <= s
  {
    forall a | a in Lfp(p) ensures a in s {
      TreeInClosed(p, s, TreeOf(p, a));
    }
  }

  /** At least as much asserted, at most as much denied. */
  ghost predicate Includes(big: Program, small: Program)
  {
    small.facts <= big.facts && small.rules <= big.rules && big.denied <= small.denied
  }

  lemma {:induction false} TreeCarries(small: Program, big: Program, t: ProofTree)
    requires Includes(big, small) && ValidTree(small, t)
    ensures ValidTree(big, t)
  {
    match t {
      case Fact(_) =>
      case Inference(_, _, ts) =>
        forall i | 0 <= i < |ts| ensures ValidTree(big, ts[i]) { TreeCarries(small, big, ts[i]); }
    }
  }

  /** More facts and rules prove more; more denials prove less. */
  lemma LfpMonotone(small: Program, big: Program)
    requires Includes(big, small)
    ensures Lfp(small) <= Lfp(big)
  {
    forall a | a in Lfp(small) ensures a in Lfp(big) {
      TreeCarries(small, big, TreeOf(small, a));
    }
  }

  // ---------- instances, and the bound under which saturation is complete

  ghost function Tuples(s: set<Atom>, k: nat): set<seq<Atom>>
  {
    if k == 0 then {[]} else set e, t | e in s && t in Tuples(s, k - 1) :: [e] + t
  }

  lemma {:induction false} TuplesAre(s: set<Atom>, k: nat, t: seq<Atom>)
    ensures t in Tuples(s, k) <==> |t| == k && Within(t, s)
  {
    if k > 0 {
      if t != [] {
        TuplesAre(s, k - 1, t[1..]);
        assert t == [t[0]] + t[1..];
        if |t| == k && Within(t, s) { assert t[0] in s && t[1..] in Tuples(s, k - 1); }
      }
      if t in Tuples(s, k) {
        var e, u :| e in s && u in Tuples(s, k - 1) && t == [e] + u;
        assert u == t[1..] && e == t[0];
      }
    }
  }

  /** The premise tuples over `s` from which the rule concludes something. */
  ghost function Instances(r: Rule, s: set<Atom>): (i: set<seq<Atom>>)
    ensures forall es :: es in i <==> Within(es, s) && Fire(r, es).Some?
  {
    forall es ensures es in Tuples(s, |r.premises|) <==> |es| == |r.premises| && Within(es, s) {
      TuplesAre(s, |r.premises|, es);
    }
    set es | es in Tuples(s, |r.premises|) && Fire(r, es).Some?
  }

  const RULE_PREFIX: Str := [114, 117, 108, 101, 58]   // "rule:"

  /** What the engine writes for a derived atom: one belief for each head and rule name. */
  function DerivedBelief(head: Atom, ruleName: Str): Belief
  {
    Belief(head, POSITIVE, RULE_PREFIX + ruleName, 0)
  }

  /** The beliefs the rules write over `s`. */
  ghost function Conclusions(rules: set<Rule>, s: set<Atom>): set<Belief>
  {
    set r, es | r in rules && es in Instances(r, s) && ValidAtom(Fire(r, es).value)
      :: DerivedBelief(Fire(r, es).value, r.name)
  }

  /** D + M < cap: D distinct (head, rule name) pairs are derivable over the
      least fixpoint, and no rule has more than M instances over it. */
  ghost predicate Bounded(p: Program, cap: int)
  {
    forall r :: r in p.rules ==> |Conclusions(p.rules, Lfp(p))| + |Instances(r, Lfp(p))| < cap
  }

  lemma SubsetSize<T>(a: set<T>, b: set<T>)
    requires a <= b
    ensures |a| <= |b|
  {
    assert b == a + (b - a);
  }

  lemma InstancesGrow(r: Rule, s: set<Atom>, t: set<Atom>)
    requires s <= t
    ensures Instances(r, s) <= Instances(r, t)
    ensures |Instances(r, s)| <= |Instances(r, t)|
  {
    SubsetSize(Instances(r, s), Instances(r, t));
  }

  lemma ConclusionsGrow(rs: set<Rule>, s: set<Atom>, qs: set<Rule>, t: set<Atom>)
    requires rs <= qs && s <= t
    ensures Conclusions(rs, s) <= Conclusions(qs, t)
    ensures |Conclusions(rs, s)| <= |Conclusions(qs, t)|
  {
    forall r ensures Instances(r, s) <= Instances(r, t) { InstancesGrow(r, s, t); }
    SubsetSize(Conclusions(rs, s), Conclusions(qs, t));
  }

  /** A bound for a program holds for everything it includes. */
  lemma BoundedInherits(small: Program, big: Program, cap: int)
    requires Includes(big, small) && Bounded(big, cap)
    ensures Bounded(small, cap)
  {
    LfpMonotone(small, big);
    ConclusionsGrow(small.rules, Lfp(small), big.rules, Lfp(big));
    forall r | r in small.rules
      ensures |Conclusions(small.rules, Lfp(small))| + |Instances(r, Lfp(small))| < cap
    {
      InstancesGrow(r, Lfp(small), Lfp(big));
    }
  }
}
