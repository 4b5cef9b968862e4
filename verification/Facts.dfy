/** Atoms, beliefs, resolutions and the strings the engine keys them by
    (pkg/belief/types.go, pkg/kg/graph.go, pkg/engine/proof.go). */
module Facts {
  import opened Order

  const BAR: byte := 124        // '|'
  const SEMICOLON: byte := 59   // ';'

  /** An atom, a graph edge or an edge view: the three field-for-field equal
      structs of the source. */
  datatype Triple = Triple(from: Str, pred: Str, to: Str)

  type Atom = Triple

  type int64 = x: int | -0x8000_0000_0000_0000 <= x < 0x8000_0000_0000_0000

  /** A polarity is a byte: only two values are valid, any of them can be decoded. */
  type Polarity = byte

  const NEGATIVE: Polarity := 0
  const POSITIVE: Polarity := 1

  datatype Belief = Belief(atom: Atom, polarity: Polarity, source: Str, unixNano: int64)

  datatype Resolution = Resolution(atom: Atom, polarity: Polarity, source: Str, unixNano: int64)

  predicate ValidAtom(a: Atom) { a.from != [] && a.to != [] && a.pred != [] }

  predicate ValidBelief(b: Belief)
  {
    ValidAtom(b.atom) && b.source != [] && (b.polarity == NEGATIVE || b.polarity == POSITIVE)
  }

  predicate ValidResolution(r: Resolution)
  {
    ValidAtom(r.atom) && r.source != [] && (r.polarity == NEGATIVE || r.polarity == POSITIVE)
  }

  /** The comparator of `EdgesAll`, `Atoms` and `edgesToView`. */
  function AtomOrder(a: Atom): Key { [a.from, a.pred, a.to] }

  /** By subject, then predicate, then object. */
  ghost predicate AtomBefore(a: Triple, b: Triple)
  {
    ComesBefore(a.from, b.from) || (a.from == b.from && PairBefore(a.pred, a.to, b.pred, b.to))
  }

  lemma AtomOrderMeans(a: Triple, b: Triple)
    ensures KeyLess(AtomOrder(a), AtomOrder(b)) <==> AtomBefore(a, b)
  {
    KeyLessCons(a.from, [a.pred, a.to], b.from, [b.pred, b.to]);
    KeyLessTwo(a.pred, a.to, b.pred, b.to);
    assert [a.from] + [a.pred, a.to] == AtomOrder(a) && [b.from] + [b.pred, b.to] == AtomOrder(b);
  }

  /** An atom's three fields at the front of a key. */
  lemma PrefixedOrder(a: Triple, k: Key, b: Triple, m: Key)
    ensures KeyLess([a.from, a.pred, a.to] + k, [b.from, b.pred, b.to] + m) <==> AtomBefore(a, b) || (a == b && KeyLess(k, m))
    ensures [a.from, a.pred, a.to] + k == [b.from, b.pred, b.to] + m ==> a == b && k == m
  {
    var u, v := [a.from, a.pred, a.to] + k, [b.from, b.pred, b.to] + m;
    assert u == [a.from] + ([a.pred] + ([a.to] + k)) && v == [b.from] + ([b.pred] + ([b.to] + m));
    hide KeyLess;
    KeyLessCons(a.from, [a.pred] + ([a.to] + k), b.from, [b.pred] + ([b.to] + m));
    KeyLessCons(a.pred, [a.to] + k, b.pred, [b.to] + m);
    KeyLessCons(a.to, k, b.to, m);
    if u == v {
      assert u[0] == v[0] && u[1] == v[1] && u[2] == v[2] && u[3..] == k && v[3..] == m;
    }
  }

  /** Strictly sorted, in so many words. */
  ghost predicate AtomsAscend(list: seq<Triple>)
  {
    forall i, j :: 0 <= i < j < |list| ==> AtomBefore(list[i], list[j])
  }

  lemma AscendingAtoms(list: seq<Triple>)
    ensures Ascending(list, AtomOrder) <==> AtomsAscend(list)
  {
    forall i, j | 0 <= i < j < |list| ensures KeyLess(AtomOrder(list[i]), AtomOrder(list[j])) <==> AtomBefore(list[i], list[j]) {
      AtomOrderMeans(list[i], list[j]);
    }
  }

  lemma AtomOrderInjective(atoms: seq<Atom>)
    ensures Injective(atoms, AtomOrder)
  {
    forall x, y | x in atoms && y in atoms && AtomOrder(x) == AtomOrder(y) ensures x == y {
      assert AtomOrder(x)[0] == AtomOrder(y)[0] && AtomOrder(x)[1] == AtomOrder(y)[1] && AtomOrder(x)[2] == AtomOrder(y)[2];
    }
  }

  /** The atoms that `|`-joining and `;`-joining keep apart. */
  predicate Clean(s: Str) { BAR !in s && SEMICOLON !in s }

  predicate CleanAtom(a: Atom) { Clean(a.from) && Clean(a.pred) && Clean(a.to) }

  predicate AllClean(atoms: seq<Atom>) { forall a :: a in atoms ==> CleanAtom(a) }

  /** `atomKey` (proof.go:15-23). */
  function AtomKey(a: Atom): Str { a.from + [BAR] + a.pred + [BAR] + a.to }

  /** The `;`-prefixed atom keys that end a derivation key. */
  function KeyTail(atoms: seq<Atom>): Str
  {
    if atoms == [] then [] else KeyTail(atoms[..|atoms| - 1]) + ([SEMICOLON] + AtomKey(atoms[|atoms| - 1]))
  }

  /** A separator splits a string uniquely before a part that does not hold it. */
  lemma SplitFirst(p: Str, q: Str, r: Str, s: Str, sep: byte)
    requires p + [sep] + q == r + [sep] + s
    requires sep !in p && sep !in r
    ensures p == r && q == s
  {
    var u, v := p + [sep] + q, r + [sep] + s;
    assert u[|p|] == sep && v[|r|] == sep;
    assert forall i :: 0 <= i < |p| ==> u[i] == p[i] != sep;
    assert forall i :: 0 <= i < |r| ==> v[i] == r[i] != sep;
    assert p == u[..|p|] && r == v[..|r|];
    assert q == u[|p| + 1..] && s == v[|r| + 1..];
  }

  /** A separator splits a string uniquely after a part that does not hold it. */
  lemma SplitLast(p: Str, q: Str, r: Str, s: Str, sep: byte)
    requires p + ([sep] + q) == r + ([sep] + s)
    requires sep !in q && sep !in s
    ensures p == r && q == s
  {
    var u, v := p + ([sep] + q), r + ([sep] + s);
    assert u[|p|] == sep && v[|r|] == sep;
    assert forall i :: |p| < i < |u| ==> u[i] == q[i - |p| - 1] && u[i] != sep;
    assert forall i :: |r| < i < |v| ==> v[i] == s[i - |r| - 1] && v[i] != sep;
    assert p == u[..|p|] && r == v[..|r|];
    assert q == u[|p| + 1..] && s == v[|r| + 1..];
  }

  /** Atom keys tell clean atoms apart. */
  lemma AtomKeyInjective(a: Atom, b: Atom)
    requires CleanAtom(a) && CleanAtom(b)
    requires AtomKey(a) == AtomKey(b)
    ensures a == b
  {
    assert AtomKey(a) == a.from + [BAR] + (a.pred + [BAR] + a.to);
    assert AtomKey(b) == b.from + [BAR] + (b.pred + [BAR] + b.to);
    SplitFirst(a.from, a.pred + [BAR] + a.to, b.from, b.pred + [BAR] + b.to, BAR);
    SplitFirst(a.pred, a.to, b.pred, b.to, BAR);
  }

  lemma CleanKey(a: Atom)
    requires CleanAtom(a)
    ensures SEMICOLON !in AtomKey(a)
  {
  }

  lemma TailLast(head: Str, a: seq<Atom>)
    requires a != []
    ensures var n := |a| - 1; head + KeyTail(a) == (head + KeyTail(a[..n])) + ([SEMICOLON] + AtomKey(a[n]))
  {
    var n := |a| - 1;
    Assoc(head, KeyTail(a[..n]), [SEMICOLON] + AtomKey(a[n]));
  }

  /** Lists of the same length: the part before them may hold anything. */
  lemma {:induction false} KeyTailInjective(head1: Str, a: seq<Atom>, head2: Str, b: seq<Atom>)
    requires |a| == |b| && AllClean(a) && AllClean(b)
    requires head1 + KeyTail(a) == head2 + KeyTail(b)
    ensures head1 == head2 && a == b
  {
    hide AtomKey, Clean;
    if a != [] {
      var n := |a| - 1;
      TailLast(head1, a);
      TailLast(head2, b);
      CleanKey(a[n]);
      CleanKey(b[n]);
      SplitLast(head1 + KeyTail(a[..n]), AtomKey(a[n]), head2 + KeyTail(b[..n]), AtomKey(b[n]), SEMICOLON);
      AtomKeyInjective(a[n], b[n]);
      KeyTailInjective(head1, a[..n], head2, b[..n]);
      assert a == a[..n] + [a[n]] && b == b[..n] + [b[n]];
    } else {
      assert head1 + [] == head1 && head2 + [] == head2;
    }
  }

  /** Lists of any lengths: the part before them must not hold the separator. */
  lemma {:induction false} NamedKeyInjective(name1: Str, a: seq<Atom>, name2: Str, b: seq<Atom>)
    requires AllClean(a) && AllClean(b)
    requires SEMICOLON !in name1 && SEMICOLON !in name2
    requires name1 + KeyTail(a) == name2 + KeyTail(b)
    ensures name1 == name2 && a == b
  {
    hide AtomKey, Clean, KeyTail;
    if a == [] || b == [] {
      NoTail(name1, a);
      NoTail(name2, b);
    } else {
      var m, n := |a| - 1, |b| - 1;
      TailLast(name1, a);
      TailLast(name2, b);
      CleanKey(a[m]);
      CleanKey(b[n]);
      SplitLast(name1 + KeyTail(a[..m]), AtomKey(a[m]), name2 + KeyTail(b[..n]), AtomKey(b[n]), SEMICOLON);
      AtomKeyInjective(a[m], b[n]);
      NamedKeyInjective(name1, a[..m], name2, b[..n]);
      assert a == a[..m] + [a[m]] && b == b[..n] + [b[n]];
    }
  }

  lemma NoTail(name: Str, a: seq<Atom>)
    requires SEMICOLON !in name
    ensures SEMICOLON in name + KeyTail(a) <==> a != []
    ensures a == [] ==> name + KeyTail(a) == name
  {
    hide AtomKey;
    if a != [] { assert ([SEMICOLON] + AtomKey(a[|a| - 1]))[0] == SEMICOLON; }
  }
}
