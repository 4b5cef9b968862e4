/** Rules, unification and substitution (pkg/rules/rules.go, pkg/rules/unify.go,
    `matchAtom` of pkg/rules/eval.go). */
module Rules {
  import opened Order
  import opened Facts

  type Pattern = Triple

  /** The source calls the premises `If` and the conclusion `Then`. */
  datatype Rule = Rule(name: Str, premises: seq<Pattern>, conclusion: Pattern)

  type Bindings = map<Str, Str>

  const QUERY: byte := 63   // '?'

  // The variables "?x", "?y" and "?z".
  const X: Str := [QUERY, 120]
  const Y: Str := [QUERY, 121]
  const Z: Str := [QUERY, 122]

  predicate IsVar(s: Str) { |s| >= 2 && s[0] == QUERY && s[1] != 0 }

  function UnifyField(pattern: Str, value: Str, binds: Bindings): Option<Bindings>
  {
    if IsVar(pattern) then
      if pattern in binds then
        if binds[pattern] == value then Some(binds) else None
      else
        Some(binds[pattern := value])
    else if pattern == value then Some(binds) else None
  }

  function MatchAtom(p: Pattern, e: Triple, binds: Bindings): Option<Bindings>
  {
    match UnifyField(p.from, e.from, binds)
    case None => None
    case Some(b1) =>
      match UnifyField(p.pred, e.pred, b1)
      case None => None
      case Some(b2) => UnifyField(p.to, e.to, b2)
  }

  function ApplyField(binds: Bindings, field: Str): Option<Str>
  {
    if !IsVar(field) then Some(field)
    else if field in binds then Some(binds[field]) else None
  }

  function Apply(binds: Bindings, p: Pattern): Option<Triple>
  {
    match (ApplyField(binds, p.from), ApplyField(binds, p.pred), ApplyField(binds, p.to))
    case (Some(f), Some(q), Some(t)) => Some(Triple(f, q, t))
    case _ => None
  }

  /** Every pattern under the bindings, or nothing if a variable is unbound. */
  function ApplyAll(binds: Bindings, ps: seq<Pattern>): Option<seq<Triple>>
  {
    if ps == [] then Some([]) else
      match (Apply(binds, ps[0]), ApplyAll(binds, ps[1..]))
      case (Some(t), Some(ts)) => Some([t] + ts)
      case _ => None
  }

  ghost predicate Extends(b: Bindings, c: Bindings)
  {
    forall v :: v in b ==> v in c && c[v] == b[v]
  }

  ghost function FieldVars(f: Str): set<Str> { if IsVar(f) then {f} else {} }

  ghost function Vars(p: Pattern): set<Str> { FieldVars(p.from) + FieldVars(p.pred) + FieldVars(p.to) }

  ghost function AllVars(ps: seq<Pattern>): set<Str>
  {
    if ps == [] then {} else Vars(ps[0]) + AllVars(ps[1..])
  }

  /** Matching the patterns against the atoms one after another. */
  function MatchAll(ps: seq<Pattern>, es: seq<Triple>, binds: Bindings): Option<Bindings>
    requires |ps| == |es|
  {
    if ps == [] then Some(binds) else
      match MatchAtom(ps[0], es[0], binds)
      case None => None
      case Some(b) => MatchAll(ps[1..], es[1..], b)
  }

  /** What the rule concludes from these atoms as premises, if anything. */
  function Fire(r: Rule, es: seq<Triple>): Option<Triple>
  {
    if |es| != |r.premises| then None else
      match MatchAll(r.premises, es, map[])
      case None => None
      case Some(b) => Apply(b, r.conclusion)
  }

  /** Substitution semantics: some substitution of exactly the premises'
      variables turns the premises into `es` and the conclusion into `a`. */
  ghost predicate Instance(r: Rule, es: seq<Triple>, a: Triple)
  {
    |es| == |r.premises| &&
    exists s: Bindings ::
      s.Keys == AllVars(r.premises) && Apply(s, r.conclusion) == Some(a) &&
      forall i :: 0 <= i < |es| ==> Apply(s, r.premises[i]) == Some(es[i])
  }

  /** A unifier is the least extension that maps the pattern to the value. */
  lemma UnifyIsLeast(p: Str, v: Str, b: Bindings, s: Bindings)
    ensures UnifyField(p, v, b).Some? && Extends(UnifyField(p, v, b).value, s)
            <==> Extends(b, s) && ApplyField(s, p) == Some(v)
  {
    if IsVar(p) && p !in b && p in s && s[p] == v && Extends(b, s) {
      assert Extends(b[p := v], s);
    }
    if UnifyField(p, v, b).Some? && p !in b && Extends(UnifyField(p, v, b).value, s) && IsVar(p) {
      assert forall x :: x in b ==> x in b[p := v] && b[p := v][x] == b[x];
      assert p in b[p := v];
    }
  }

  lemma MatchIsLeast(p: Pattern, e: Triple, b: Bindings, s: Bindings)
    ensures MatchAtom(p, e, b).Some? && Extends(MatchAtom(p, e, b).value, s)
            <==> Extends(b, s) && Apply(s, p) == Some(e)
  {
    UnifyIsLeast(p.from, e.from, b, s);
    match UnifyField(p.from, e.from, b) {
      case None =>
      case Some(b1) =>
        UnifyIsLeast(p.pred, e.pred, b1, s);
        match UnifyField(p.pred, e.pred, b1) {
          case None =>
          case Some(b2) => UnifyIsLeast(p.to, e.to, b2, s);
        }
    }
  }

  lemma {:induction false} MatchAllIsLeast(ps: seq<Pattern>, es: seq<Triple>, b: Bindings, s: Bindings)
    requires |ps| == |es|
    ensures MatchAll(ps, es, b).Some? && Extends(MatchAll(ps, es, b).value, s)
            <==> Extends(b, s) && forall i :: 0 <= i < |ps| ==> Apply(s, ps[i]) == Some(es[i])
  {
    if ps != [] {
      MatchIsLeast(ps[0], es[0], b, s);
      match MatchAtom(ps[0], es[0], b) {
        case None =>
        case Some(c) =>
          MatchAllIsLeast(ps[1..], es[1..], c, s);
          assert forall i :: 1 <= i < |ps| ==> ps[i] == ps[1..][i - 1] && es[i] == es[1..][i - 1];
      }
    }
  }

  lemma MatchKeys(p: Pattern, e: Triple, b: Bindings)
    ensures MatchAtom(p, e, b).Some? ==> MatchAtom(p, e, b).value.Keys == b.Keys + Vars(p)
  {
  }

  lemma {:induction false} MatchAllKeys(ps: seq<Pattern>, es: seq<Triple>, b: Bindings)
    requires |ps| == |es|
    ensures MatchAll(ps, es, b).Some? ==> MatchAll(ps, es, b).value.Keys == b.Keys + AllVars(ps)
  {
    if ps != [] {
      MatchKeys(ps[0], es[0], b);
      match MatchAtom(ps[0], es[0], b) {
        case None =>
        case Some(c) => MatchAllKeys(ps[1..], es[1..], c);
      }
    }
  }

  /** Unification computes exactly the substitution instances. */
  lemma FireIsInstance(r: Rule, es: seq<Triple>, a: Triple)
    ensures Fire(r, es) == Some(a) <==> Instance(r, es, a)
  {
    if |es| == |r.premises| {
      var m := MatchAll(r.premises, es, map[]);
      MatchAllKeys(r.premises, es, map[]);
      if Fire(r, es) == Some(a) {
        MatchAllIsLeast(r.premises, es, map[], m.value);
      }
      if Instance(r, es, a) {
        var s: Bindings :| s.Keys == AllVars(r.premises) && Apply(s, r.conclusion) == Some(a) &&
          forall i :: 0 <= i < |es| ==> Apply(s, r.premises[i]) == Some(es[i]);
        MatchAllIsLeast(r.premises, es, map[], s);
        assert m.value == s;
      }
    }
  }

  lemma MatchAllSplit(ps: seq<Pattern>, es: seq<Triple>, b: Bindings)
    requires |ps| == |es| > 0
    ensures MatchAll(ps, es, b) == match MatchAtom(ps[0], es[0], b)
                                   case None => None
                                   case Some(c) => MatchAll(ps[1..], es[1..], c)
  {
  }

  /** The fields of an atom. */
  ghost function Fields(a: Triple): set<Str> { {a.from, a.pred, a.to} }

  ghost function AllFields(es: seq<Triple>): set<Str>
  {
    set e, f | e in es && f in Fields(e) :: f
  }

  /** A rule concludes with names taken from its premises or its own text. */
  lemma FireFields(r: Rule, es: seq<Triple>, f: Str)
    requires Fire(r, es).Some? && f in Fields(Fire(r, es).value)
    ensures f in AllFields(es) || (f in Fields(r.conclusion) && !IsVar(f))
  {
    var b := MatchAll(r.premises, es, map[]).value;
    forall v | v in b ensures b[v] in AllFields(es) {
      BoundToFields(r.premises, es, map[], v);
    }
  }

  lemma {:induction false} BoundToFields(ps: seq<Pattern>, es: seq<Triple>, b: Bindings, v: Str)
    requires |ps| == |es| && MatchAll(ps, es, b).Some? && v in MatchAll(ps, es, b).value
    ensures (v in b && MatchAll(ps, es, b).value[v] == b[v]) || MatchAll(ps, es, b).value[v] in AllFields(es)
  {
    if ps != [] {
      var c := MatchAtom(ps[0], es[0], b).value;
      BoundToFields(ps[1..], es[1..], c, v);
      assert forall e :: e in es[1..] ==> e in es;
      assert AllFields(es[1..]) <= AllFields(es);
      assert es[0] in es && Fields(es[0]) <= AllFields(es);
    }
  }

  // ---------- in bytes

  /** A variable is a question mark, byte 63, and at least one more byte, the
      first of them not zero: these are the fields that match different values. */
  lemma MatchesAnyValue(f: Str, v: Str, w: Str)
    requires v != w
    ensures UnifyField(f, v, map[]).Some? && UnifyField(f, w, map[]).Some? <==> |f| >= 2 && f[0] == 63 && f[1] != 0
  {
  }

  /** "?x" p "?y" => "?y" q "?x" turns an edge round. */
  lemma FiresInBytes(name: Str, p: Str, q: Str, a: Str, b: Str)
    requires (p == [] || p[0] != 63) && (q == [] || q[0] != 63)
    ensures Fire(Rule(name, [Triple([63, 120], p, [63, 121])], Triple([63, 121], q, [63, 120])), [Triple(a, p, b)])
            == Some(Triple(b, q, a))
  {
    var r := Rule(name, [Triple([63, 120], p, [63, 121])], Triple([63, 121], q, [63, 120]));
    var x: Str, y: Str := [63, 120], [63, 121];
    assert x[1] == 120 && y[1] == 121;
    var s: Bindings := map[x := a, y := b];
    assert MatchAtom(r.premises[0], Triple(a, p, b), map[]) == Some(s);
    assert MatchAll(r.premises, [Triple(a, p, b)], map[]) == Some(s);
  }
}
