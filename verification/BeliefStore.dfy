/** The belief store (pkg/belief/store.go): lists by atom and polarity, kept in
    the order of time and source. */
module BeliefStore {
  import opened Order
  import opened Facts

  type ByPolarity = map<Polarity, seq<Belief>>

  type Table = map<Atom, ByPolarity>

  datatype Reason = ConflictsWithResolution | OppositePolarity

  datatype Contradiction = Contradiction(atom: Atom, existing: Belief, incoming: Belief, reason: Reason, unixNano: int64)

  /** `Add` returns an error, or maybe a contradiction. */
  datatype Added = Invalid | Accepted(contradiction: Option<Contradiction>)

  /** The comparator of `sortLocked` (store.go:110-120). */
  function TimeOrder(b: Belief): Key { [[b.unixNano], b.source] }

  ghost function Entries(t: Table): set<Belief>
  {
    set a, pol, b | a in t && pol in t[a] && b in t[a][pol] :: b
  }

  /** A list under an atom and a polarity: sorted, without repetitions. */
  ghost predicate ValidList(a: Atom, pol: Polarity, list: seq<Belief>)
  {
    && list != [] && Ascending(list, TimeOrder)
    && forall b :: b in list ==> b.atom == a && b.polarity == pol && ValidBelief(b)
  }

  ghost predicate ValidTable(t: Table)
  {
    forall a :: a in t ==> t[a] != map[] && forall pol :: pol in t[a] ==> ValidList(a, pol, t[a][pol])
  }

  // ---------- what the lists must be, from the set of beliefs alone

  ghost function Of(beliefs: set<Belief>, a: Atom, pol: Polarity): set<Belief>
  {
    set b | b in beliefs && b.atom == a && b.polarity == pol
  }

  ghost function ListOf(beliefs: set<Belief>, a: Atom, pol: Polarity): seq<Belief>
  {
    SortedListing(Of(beliefs, a, pol), TimeOrder)
  }

  /** `Snapshot` depends on nothing but the set of beliefs. */
  ghost function SnapshotOf(beliefs: set<Belief>, a: Atom): seq<Belief>
  {
    ListOf(beliefs, a, NEGATIVE) + ListOf(beliefs, a, POSITIVE)
  }

  ghost function AtomsOf(beliefs: set<Belief>): set<Atom> { set b | b in beliefs :: b.atom }

  function Opposite(pol: Polarity): Polarity { if pol == POSITIVE then NEGATIVE else POSITIVE }

  /** A new belief contradicts the resolution of its atom or, absent one, the
      earliest belief of the opposite polarity. */
  ghost function ContradictionOf(beliefs: set<Belief>, resolutions: map<Atom, Resolution>,
        b: Belief): Option<Contradiction>
  {
    if b in beliefs then None
    else if b.atom in resolutions then
      var r := resolutions[b.atom];
      if b.polarity == r.polarity then None
      else Some(Contradiction(b.atom, Belief(r.atom, r.polarity, r.source, r.unixNano), b, ConflictsWithResolution, b.unixNano))
    else if ListOf(beliefs, b.atom, Opposite(b.polarity)) == [] then None
    else Some(Contradiction(b.atom, ListOf(beliefs, b.atom, Opposite(b.polarity))[0], b, OppositePolarity, b.unixNano))
  }

  lemma TimeOrderInjective(b: Belief, c: Belief)
    requires b.atom == c.atom && b.polarity == c.polarity && TimeOrder(b) == TimeOrder(c)
    ensures b == c
  {
    assert TimeOrder(b)[0][0] == TimeOrder(c)[0][0] && TimeOrder(b)[1] == TimeOrder(c)[1];
  }

  /** The lists are duplicate-free, strictly sorted, and hold what they should. */
  lemma ListOfFacts(beliefs: set<Belief>, a: Atom, pol: Polarity)
    ensures Ascending(ListOf(beliefs, a, pol), TimeOrder)
    ensures forall b :: b in ListOf(beliefs, a, pol) <==> b in beliefs && b.atom == a && b.polarity == pol
  {
    var s := Of(beliefs, a, pol);
    forall x, y | x in s && y in s && TimeOrder(x) == TimeOrder(y) ensures x == y { TimeOrderInjective(x, y); }
    SortedListingIs(s, Listing(s), TimeOrder);
  }

  /** By time, then by source. */
  ghost predicate Earlier(b: Belief, c: Belief)
  {
    b.unixNano < c.unixNano || (b.unixNano == c.unixNano && ComesBefore(b.source, c.source))
  }

  lemma TimeLess(b: Belief, c: Belief)
    ensures KeyLess(TimeOrder(b), TimeOrder(c)) <==> Earlier(b, c)
  {
    KeyLessCons([b.unixNano], [b.source], [c.unixNano], [c.source]);
    KeyLessOne(b.source, c.source);
    FieldLessMeans([b.unixNano], [c.unixNano]);
    assert [b.unixNano][1..] == [] && [c.unixNano][1..] == [];
    assert FieldLess([b.unixNano], [c.unixNano]) == (b.unixNano < c.unixNano);
    assert TimeOrder(b) == [[b.unixNano]] + [b.source] && TimeOrder(c) == [[c.unixNano]] + [c.source];
  }

  /** The reported opposite belief is the earliest one. */
  lemma ReportsTheEarliest(beliefs: set<Belief>, resolutions: map<Atom, Resolution>, b: Belief, c: Belief)
    requires b !in beliefs && b.atom !in resolutions && ValidBelief(b)
    requires c in beliefs && c.atom == b.atom && c.polarity == Opposite(b.polarity)
    ensures var r := ContradictionOf(beliefs, resolutions, b);
            && r.Some? && r.value.existing in beliefs && r.value.existing.atom == b.atom
            && r.value.existing.polarity != b.polarity
            && (r.value.existing == c || Earlier(r.value.existing, c))
  {
    var list := ListOf(beliefs, b.atom, Opposite(b.polarity));
    ListOfFacts(beliefs, b.atom, Opposite(b.polarity));
    var k :| 0 <= k < |list| && list[k] == c;
    assert list[0] in list;
    if k > 0 { TimeLess(list[0], c); }
  }

  /** A stored belief of the same atom and the other polarity. */
  ghost predicate Opposes(beliefs: set<Belief>, e: Belief, b: Belief)
  {
    e in beliefs && e.atom == b.atom && e.polarity != b.polarity
  }

  /** The resolution of its atom says otherwise or, without one, a stored belief does. */
  ghost predicate Conflicts(beliefs: set<Belief>, resolutions: map<Atom, Resolution>, b: Belief)
  {
    if b.atom in resolutions then b.polarity != resolutions[b.atom].polarity else exists e :: Opposes(beliefs, e, b)
  }

  /** The contradiction that a new belief is owed: with the resolution of its atom
      where there is one, and otherwise with the earliest opposite belief. */
  ghost predicate OwedBy(beliefs: set<Belief>, resolutions: map<Atom, Resolution>, b: Belief, c: Contradiction)
  {
    && c.atom == b.atom && c.incoming == b && c.unixNano == b.unixNano && b !in beliefs
    && if b.atom in resolutions then
         var r := resolutions[b.atom];
         && b.polarity != r.polarity && c.reason == ConflictsWithResolution
         && c.existing.atom == r.atom && c.existing.polarity == r.polarity
         && c.existing.source == r.source && c.existing.unixNano == r.unixNano
       else
         && Opposes(beliefs, c.existing, b) && c.reason == OppositePolarity
         && forall e :: Opposes(beliefs, e, b) ==> e == c.existing || Earlier(c.existing, e)
  }

  /** A known belief reports nothing; a new one reports a contradiction exactly if
      its polarity is not that of the resolution or, without a resolution, if an
      opposite belief is stored; and it reports the one that it is owed. */
  lemma ReportsExactly(beliefs: set<Belief>, resolutions: map<Atom, Resolution>, b: Belief)
    requires ValidBelief(b) && forall e :: e in beliefs ==> ValidBelief(e)
    ensures var r := ContradictionOf(beliefs, resolutions, b);
            && (r.Some? ==> OwedBy(beliefs, resolutions, b, r.value))
            && (r.Some? <==> b !in beliefs && Conflicts(beliefs, resolutions, b))
  {
    hide Earlier;
    var list := ListOf(beliefs, b.atom, Opposite(b.polarity));
    ListOfFacts(beliefs, b.atom, Opposite(b.polarity));
    assert list != [] ==> list[0] in list;
    if b !in beliefs && b.atom !in resolutions {
      forall e | Opposes(beliefs, e, b) ensures e in list && (e == list[0] || Earlier(list[0], e)) {
        assert e in list;
        ReportsTheEarliest(beliefs, resolutions, b, e);
      }
      assert list != [] ==> Opposes(beliefs, list[0], b);
    }
  }

  /** A snapshot holds the atom's beliefs, the negative ones first, each kind by
      time and then by source. */
  lemma SnapshotInOrder(beliefs: set<Belief>, a: Atom)
    requires forall b :: b in beliefs ==> ValidBelief(b)
    ensures forall b :: b in SnapshotOf(beliefs, a) <==> b in beliefs && b.atom == a
    ensures var s := SnapshotOf(beliefs, a);
            forall i, j :: 0 <= i < j < |s| ==>
              (s[i].polarity == 0 && s[j].polarity == 1) || (s[i].polarity == s[j].polarity && Earlier(s[i], s[j]))
  {
    hide Earlier, ListOf, TimeOrder, KeyLess;
    var n, p := ListOf(beliefs, a, NEGATIVE), ListOf(beliefs, a, POSITIVE);
    ListOfFacts(beliefs, a, NEGATIVE);
    ListOfFacts(beliefs, a, POSITIVE);
    var s := n + p;
    forall i, j | 0 <= i < j < |s|
      ensures (s[i].polarity == 0 && s[j].polarity == 1) || (s[i].polarity == s[j].polarity && Earlier(s[i], s[j]))
    {
      TimeLess(s[i], s[j]);
      if j < |n| {
        assert n[i] in n && n[j] in n;
      } else if i >= |n| {
        assert p[i - |n|] in p && p[j - |n|] in p;
      } else {
        assert n[i] in n && p[j - |n|] in p;
      }
    }
  }

  // ---------- the table says what the set says

  ghost predicate Represents(t: Table, beliefs: set<Belief>) { ValidTable(t) && Entries(t) == beliefs }

  function ListAt(t: Table, a: Atom, pol: Polarity): seq<Belief>
  {
    if a in t && pol in t[a] then t[a][pol] else []
  }

  lemma ListIs(t: Table, beliefs: set<Belief>, a: Atom, pol: Polarity)
    requires Represents(t, beliefs)
    ensures ListAt(t, a, pol) == ListOf(beliefs, a, pol)
  {
    ListOfFacts(beliefs, a, pol);
    forall b ensures b in ListAt(t, a, pol) <==> b in ListOf(beliefs, a, pol) {
      if b in ListAt(t, a, pol) { assert b in Entries(t); }
    }
    AscendingUnique(ListAt(t, a, pol), ListOf(beliefs, a, pol), TimeOrder);
  }

  lemma AtomsAre(t: Table, beliefs: set<Belief>)
    requires Represents(t, beliefs)
    ensures t.Keys == AtomsOf(beliefs)
  {
    forall a | a in t ensures a in AtomsOf(beliefs) {
      var pol :| pol in t[a];
      var b := t[a][pol][0];
      assert b in t[a][pol];
      assert b in Entries(t);
    }
  }

  /** The table with a belief appended to its list. */
  function Extended(t: Table, b: Belief): Table
  {
    var byPol := if b.atom in t then t[b.atom] else map[];
    t[b.atom := byPol[b.polarity := ListAt(t, b.atom, b.polarity) + [b]]]
  }

  function SortedAt(t: Table, a: Atom): Table
    requires a in t
  {
    t[a := map pol | pol in t[a] :: Sort(t[a][pol], TimeOrder)]
  }

  lemma SortKeeps(list: seq<Belief>)
    requires Ascending(list, TimeOrder)
    ensures Sort(list, TimeOrder) == list
  {
    AscendingIsSorted(list, TimeOrder);
    SortSorts(list, TimeOrder);
    SortUnique(list, Sort(list, TimeOrder), TimeOrder);
  }

  lemma SortExtends(a: Atom, list: seq<Belief>, b: Belief)
    requires list == [] || ValidList(a, b.polarity, list)
    requires b.atom == a && ValidBelief(b) && b !in list
    ensures ValidList(a, b.polarity, Sort(list + [b], TimeOrder))
    ensures forall c :: c in Sort(list + [b], TimeOrder) <==> c in list || c == b
  {
    var more := list + [b];
    AscendingIsSorted(list, TimeOrder);
    forall x, y | x in more && y in more && TimeOrder(x) == TimeOrder(y) ensures x == y { TimeOrderInjective(x, y); }
    SortAscends(more, TimeOrder);
  }

  /** Only the list of the belief's own atom and polarity changes. */
  lemma OtherListsStay(t: Table, b: Belief, a: Atom, pol: Polarity)
    requires ValidTable(t) && (a != b.atom || pol != b.polarity)
    ensures ListAt(SortedAt(Extended(t, b), b.atom), a, pol) == ListAt(t, a, pol)
  {
    hide KeyLess, TimeOrder;
    if a == b.atom && a in t && pol in t[a] { SortKeeps(t[a][pol]); }
  }

  lemma SortedAtHolds(t: Table, b: Belief)
    requires ValidTable(t) && ValidBelief(b) && b !in ListAt(t, b.atom, b.polarity)
    ensures ValidTable(SortedAt(Extended(t, b), b.atom))
    ensures forall a, pol, c :: c in ListAt(SortedAt(Extended(t, b), b.atom), a, pol) <==>
              c in ListAt(t, a, pol) || (c == b && a == b.atom && pol == b.polarity)
  {
    hide KeyLess, TimeOrder, ValidBelief;
    var list, u := ListAt(t, b.atom, b.polarity), SortedAt(Extended(t, b), b.atom);
    SortExtends(b.atom, list, b);
    assert ListAt(u, b.atom, b.polarity) == Sort(list + [b], TimeOrder);
    forall a, pol | a != b.atom || pol != b.polarity ensures ListAt(u, a, pol) == ListAt(t, a, pol) {
      OtherListsStay(t, b, a, pol);
    }
    forall a, pol | a in u && pol in u[a] ensures ValidList(a, pol, u[a][pol]) {
      assert u[a][pol] == ListAt(u, a, pol);
      assert a != b.atom || pol != b.polarity ==> a in t && pol in t[a] && u[a][pol] == t[a][pol];
    }
  }

  lemma ListsAreEntries(t: Table)
    requires ValidTable(t)
    ensures forall b :: b in Entries(t) <==> b in ListAt(t, b.atom, b.polarity)
  {
    hide KeyLess, TimeOrder, ValidBelief;
    forall b ensures b in Entries(t) <==> b in ListAt(t, b.atom, b.polarity) {
      if b in Entries(t) {
        var a, pol :| a in t && pol in t[a] && b in t[a][pol];
      }
    }
  }

  lemma AddRepresents(t: Table, beliefs: set<Belief>, b: Belief)
    requires Represents(t, beliefs) && ValidBelief(b) && b !in beliefs
    ensures Represents(SortedAt(Extended(t, b), b.atom), beliefs + {b})
  {
    hide ValidTable, ValidBelief, SortedAt, ListAt;
    var u := SortedAt(Extended(t, b), b.atom);
    ListsAreEntries(t);
    SortedAtHolds(t, b);
    ListsAreEntries(u);
    forall c ensures c in Entries(u) <==> c in Entries(t) || c == b {
      assert c in ListAt(u, c.atom, c.polarity) <==> c in ListAt(t, c.atom, c.polarity) || c == b;
    }
  }

  class Store {
    var beliefsByAtom: Table
    var resolutionByAtom: map<Atom, Resolution>
    var count: int

    /** The beliefs in the store. */
    ghost var contents: set<Belief>

    ghost predicate Valid()
      reads this
    {
      && Represents(beliefsByAtom, contents) && count == |contents|
      && forall a :: a in resolutionByAtom ==> resolutionByAtom[a].atom == a && ValidResolution(resolutionByAtom[a])
    }

    constructor ()
      ensures Valid() && contents == {} && resolutionByAtom == map[]
    {
      beliefsByAtom, resolutionByAtom, count, contents := map[], map[], 0, {};
    }

    lemma AllValid()
      requires Represents(beliefsByAtom, contents)
      ensures forall b :: b in contents ==> ValidBelief(b)
    {
      forall b | b in contents ensures ValidBelief(b) {
        var a, pol :| a in beliefsByAtom && pol in beliefsByAtom[a] && b in beliefsByAtom[a][pol];
      }
    }

    method Count() returns (n: int)
      requires Valid()
      ensures n == |contents|
    {
      n := count;
    }

    /** `Add` (store.go:31-108). */
    method Add(b: Belief) returns (r: Added)
      requires Valid()
      modifies this
      ensures Valid() && resolutionByAtom == old(resolutionByAtom)
      ensures r.Invalid? <==> !ValidBelief(b)
      ensures r.Invalid? <==>
                b.atom.from == [] || b.atom.to == [] || b.atom.pred == [] || b.source == [] || (b.polarity != 0 && b.polarity != 1)
      ensures contents == if r.Invalid? then old(contents) else old(contents) + {b}
      ensures r.Accepted? ==> r.contradiction == ContradictionOf(old(contents), old(resolutionByAtom), b)
      ensures r.Accepted? && r.contradiction.Some? ==> OwedBy(old(contents), old(resolutionByAtom), b, r.contradiction.value)
      ensures r.Accepted? ==>
                (r.contradiction.Some? <==> b !in old(contents) && Conflicts(old(contents), old(resolutionByAtom), b))
    {
      hide Represents, ListOf, ListAt, Ascending, OwedBy, Conflicts;
      if !ValidBelief(b) {
        return Invalid;
      }
      AllValid();
      ReportsExactly(contents, resolutionByAtom, b);
      ListIs(beliefsByAtom, contents, b.atom, b.polarity);
      ListOfFacts(contents, b.atom, b.polarity);
      var known := Knows(ListAt(beliefsByAtom, b.atom, b.polarity), b);
      if known {
        assert contents + {b} == contents;
        return Accepted(None);
      }
      var conflict := Conflict(b);
      Append(b);
      return Accepted(conflict);
    }

    /** What the accepting branches report, decided before the belief is appended. */
    method Conflict(b: Belief) returns (c: Option<Contradiction>)
      requires Represents(beliefsByAtom, contents) && b !in contents
      ensures c == ContradictionOf(contents, resolutionByAtom, b)
    {
      ListIs(beliefsByAtom, contents, b.atom, Opposite(b.polarity));
      if b.atom in resolutionByAtom {
        var res := resolutionByAtom[b.atom];
        if b.polarity == res.polarity {
          return None;
        }
        var existing := Belief(res.atom, res.polarity, res.source, res.unixNano);
        return Some(Contradiction(b.atom, existing, b, ConflictsWithResolution, b.unixNano));
      }
      var opposite := ListAt(beliefsByAtom, b.atom, Opposite(b.polarity));
      if |opposite| > 0 {
        return Some(Contradiction(b.atom, opposite[0], b, OppositePolarity, b.unixNano));
      }
      return None;
    }

    /** The scan for an equal source and time under the same atom and polarity. */
    static method Knows(cur: seq<Belief>, b: Belief) returns (known: bool)
      requires forall c :: c in cur ==> c.atom == b.atom && c.polarity == b.polarity
      ensures known <==> b in cur
    {
      for i := 0 to |cur|
        invariant forall k :: 0 <= k < i ==> cur[k] != b
      {
        assert cur[i] in cur;
        if cur[i].source == b.source && cur[i].unixNano == b.unixNano {
          return true;
        }
      }
      return false;
    }

    /** The three lines that every accepting branch of `Add` ends with. */
    method Append(b: Belief)
      requires Represents(beliefsByAtom, contents) && count == |contents| && ValidBelief(b) && b !in contents
      modifies this`beliefsByAtom, this`count, this`contents
      ensures Represents(beliefsByAtom, contents) && count == |contents| && contents == old(contents) + {b}
    {
      AddRepresents(beliefsByAtom, contents, b);
      assert |contents + {b}| == |contents| + 1;
      contents := contents + {b};
      beliefsByAtom := Extended(beliefsByAtom, b);
      count := count + 1;
      SortLocked(b.atom);
    }

    /** `sortLocked` (store.go:110-120). */
    method SortLocked(atom: Atom)
      requires atom in beliefsByAtom
      modifies this`beliefsByAtom
      ensures beliefsByAtom == SortedAt(old(beliefsByAtom), atom)
    {
      var byPol := beliefsByAtom[atom];
      var todo := byPol.Keys;
      while todo != {}
        invariant todo <= byPol.Keys == old(beliefsByAtom)[atom].Keys
        invariant forall p :: p in todo ==> byPol[p] == old(beliefsByAtom)[atom][p]
        invariant forall p :: p in byPol.Keys - todo ==> byPol[p] == Sort(old(beliefsByAtom)[atom][p], TimeOrder)
      {
        var pol :| pol in todo;
        byPol := byPol[pol := Sort(byPol[pol], TimeOrder)];
        todo := todo - {pol};
      }
      assert byPol == map pol | pol in old(beliefsByAtom)[atom] :: Sort(old(beliefsByAtom)[atom][pol], TimeOrder);
      beliefsByAtom := beliefsByAtom[atom := byPol];
    }

    /** `SetResolution` (store.go:122-140). */
    method SetResolution(r: Resolution) returns (ok: bool)
      requires Valid()
      modifies this`resolutionByAtom
      ensures Valid() && (ok <==> ValidResolution(r))
      ensures !ok <==>
                r.atom.from == [] || r.atom.to == [] || r.atom.pred == [] || r.source == [] || (r.polarity != 0 && r.polarity != 1)
      ensures resolutionByAtom == if ok then old(resolutionByAtom)[r.atom := r] else old(resolutionByAtom)
    {
      if !ValidResolution(r) {
        return false;
      }
      resolutionByAtom := resolutionByAtom[r.atom := r];
      ok := true;
    }

    /** `Resolution` (store.go:142-147). */
    method GetResolution(atom: Atom) returns (r: Option<Resolution>)
      ensures r == if atom in resolutionByAtom then Some(resolutionByAtom[atom]) else None
    {
      r := if atom in resolutionByAtom then Some(resolutionByAtom[atom]) else None;
    }

    /** `Snapshot` (store.go:150-163): the negative beliefs, then the positive ones. */
    method Snapshot(atom: Atom) returns (out: seq<Belief>)
      requires Valid()
      ensures out == SnapshotOf(contents, atom)
      ensures forall b :: b in out <==> b in contents && b.atom == atom
      ensures forall i, j :: 0 <= i < j < |out| ==>
                (out[i].polarity == 0 && out[j].polarity == 1) || (out[i].polarity == out[j].polarity && Earlier(out[i], out[j]))
    {
      AllValid();
      SnapshotInOrder(contents, atom);
      ListIs(beliefsByAtom, contents, atom, NEGATIVE);
      ListIs(beliefsByAtom, contents, atom, POSITIVE);
      if atom !in beliefsByAtom {
        return [];
      }
      out := ListAt(beliefsByAtom, atom, NEGATIVE);
      out := out + ListAt(beliefsByAtom, atom, POSITIVE);
    }

    /** `Atoms` (store.go:165-182). */
    method Atoms() returns (out: seq<Atom>)
      requires Valid()
      ensures out == SortedListing(AtomsOf(contents), AtomOrder)
      ensures AtomsAscend(out) && forall a :: a in out <==> exists b :: b in contents && b.atom == a
    {
      hide AtomOrder, AtomBefore, KeyLess, Represents, Ascending, AtomsAscend, Injective;
      AtomsAre(beliefsByAtom, contents);
      out := Range(beliefsByAtom.Keys);
      AtomOrderInjective(out);
      SortedListingIs(AtomsOf(contents), out, AtomOrder);
      out := Sort(out, AtomOrder);
      AscendingAtoms(out);
    }

    /** `Resolutions` (store.go:185-205). */
    method Resolutions() returns (out: seq<Resolution>)
      requires Valid()
      ensures out == SortedListing(resolutionByAtom.Values, ResolvedAtomOrder)
      ensures forall r :: r in out <==> r in resolutionByAtom.Values
      ensures forall i, j :: 0 <= i < j < |out| ==> out[i] != out[j] && AtomBefore(out[i].atom, out[j].atom)
    {
      hide AtomBefore, ResolvedAtomOrder, Represents, ValidResolution, Sorted, Injective, Ascending, SortedListing;
      var atoms := Range(resolutionByAtom.Keys);
      out := [];
      for i := 0 to |atoms|
        invariant |out| == i && forall k :: 0 <= k < i ==> out[k] == resolutionByAtom[atoms[k]]
      {
        assert atoms[i] in atoms;
        out := out + [resolutionByAtom[atoms[i]]];
      }
      forall i, j | 0 <= i < j < |out| ensures out[i] != out[j] {
        assert atoms[i] in atoms && atoms[j] in atoms;
      }
      ListsTheValues(atoms, out);
      SortedListingIs(resolutionByAtom.Values, out, ResolvedAtomOrder);
      AscendingIsSorted(Sort(out, ResolvedAtomOrder), ResolvedAtomOrder);
      out := Sort(out, ResolvedAtomOrder);
      ResolvedAtomsAscend(out);
    }

    lemma ListsTheValues(atoms: seq<Atom>, out: seq<Resolution>)
      requires Valid() && |out| == |atoms| && (forall a :: a in atoms <==> a in resolutionByAtom)
      requires forall k :: 0 <= k < |out| ==> atoms[k] in resolutionByAtom && out[k] == resolutionByAtom[atoms[k]]
      ensures forall r :: r in out <==> r in resolutionByAtom.Values
      ensures Injective(out, ResolvedAtomOrder)
    {
      forall r | r in resolutionByAtom.Values ensures r in out {
        var a :| a in resolutionByAtom && resolutionByAtom[a] == r;
        var k :| 0 <= k < |atoms| && atoms[k] == a;
        assert out[k] == r;
      }
      forall x, y | x in out && y in out && ResolvedAtomOrder(x) == ResolvedAtomOrder(y) ensures x == y {
        AtomOrderInjective([x.atom, y.atom]);
        assert x.atom in [x.atom, y.atom] && y.atom in [x.atom, y.atom];
      }
    }
  }

  function ResolvedAtomOrder(r: Resolution): Key { AtomOrder(r.atom) }

  lemma ResolvedAtomsAscend(list: seq<Resolution>)
    requires Ascending(list, ResolvedAtomOrder)
    ensures forall i, j :: 0 <= i < j < |list| ==> AtomBefore(list[i].atom, list[j].atom)
  {
    hide AtomBefore, AtomOrder;
    forall i, j | 0 <= i < j < |list| ensures AtomBefore(list[i].atom, list[j].atom) {
      AtomOrderMeans(list[i].atom, list[j].atom);
    }
  }
}
