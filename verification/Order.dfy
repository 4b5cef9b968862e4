/** Go strings and the orders the program sorts by.

    A Go string is a sequence of bytes and `<` on strings is lexicographic.
    Every comparator handed to `sort.Slice` in the repository compares a chain
    of fields, so each one is the lexicographic order on a list of fields: its
    sort key.  A subset type keeps bytes inside the integers, so strings and
    timestamps can stand side by side in a key.
 */
module Order {

  type byte = x: int | 0 <= x < 0x100

  type Str = seq<byte>

  type Key = seq<seq<int>>

  datatype Option<+T> = None | Some(value: T) {
    function GetOr(default: T): T { if Some? then value else default }
  }

  /** `a < b` on byte strings, and on one-element timestamps. */
  predicate FieldLess(a: seq<int>, b: seq<int>)
  {
    b != [] && (a == [] || a[0] < b[0] || (a[0] == b[0] && FieldLess(a[1..], b[1..])))
  }

  /** The order of a comparator that compares field by field. */
  predicate KeyLess(a: Key, b: Key)
  {
    b != [] && (a == [] || FieldLess(a[0], b[0]) || (a[0] == b[0] && KeyLess(a[1..], b[1..])))
  }

  lemma {:induction false} FieldOrder(a: seq<int>, b: seq<int>)
    ensures FieldLess(a, b) ==> !FieldLess(b, a) && a != b
    ensures FieldLess(a, b) || FieldLess(b, a) || a == b
  {
    if a != [] && b != [] {
      FieldOrder(a[1..], b[1..]);
      assert a == [a[0]] + a[1..] && b == [b[0]] + b[1..];
    }
  }

  lemma {:induction false} FieldTransitive(a: seq<int>, b: seq<int>, c: seq<int>)
    requires FieldLess(a, b) && FieldLess(b, c)
    ensures FieldLess(a, c)
  {
    if a != [] && a[0] == b[0] == c[0] {
      FieldTransitive(a[1..], b[1..], c[1..]);
    }
  }

  lemma {:induction false} KeyOrder(a: Key, b: Key)
    ensures KeyLess(a, b) ==> !KeyLess(b, a) && a != b
    ensures KeyLess(a, b) || KeyLess(b, a) || a == b
  {
    if a != [] && b != [] {
      FieldOrder(a[0], b[0]);
      KeyOrder(a[1..], b[1..]);
      assert a == [a[0]] + a[1..] && b == [b[0]] + b[1..];
    }
  }

  lemma {:induction false} KeyTransitive(a: Key, b: Key, c: Key)
    requires KeyLess(a, b) && KeyLess(b, c)
    ensures KeyLess(a, c)
  {
    if a != [] {
      if FieldLess(a[0], b[0]) && FieldLess(b[0], c[0]) {
        FieldTransitive(a[0], b[0], c[0]);
      } else if a[0] == b[0] == c[0] {
        FieldOrder(a[0], a[0]);
        KeyTransitive(a[1..], b[1..], c[1..]);
      }
    }
  }

  lemma Assoc(a: Str, b: Str, c: Str)
    ensures (a + b) + c == a + (b + c)
  {
  }

  // ---------- the orders spelled out

  /** `a` is a proper prefix of `b`, or is smaller where they first differ. */
  ghost predicate ComesBefore(a: seq<int>, b: seq<int>)
  {
    exists k: nat :: DiffersAt(a, b, k)
  }

  ghost predicate DiffersAt(a: seq<int>, b: seq<int>, k: nat)
  {
    k <= |a| && k < |b| && a[..k] == b[..k] && (k == |a| || a[k] < b[k])
  }

  lemma SameHeadBefore(a: seq<int>, b: seq<int>, k: nat)
    requires a != [] && DiffersAt(a, b, k)
    ensures k > 0 ==> a[0] == b[0]
  {
    if k > 0 { assert a[..k][0] == a[0] && b[..k][0] == b[0]; }
  }

  /** `FieldLess` is what Go's `<` on strings means. */
  lemma {:induction false} FieldLessMeans(a: seq<int>, b: seq<int>)
    ensures FieldLess(a, b) <==> ComesBefore(a, b)
    decreases |a|
  {
    if a == [] || b == [] || a[0] != b[0] {
      assert FieldLess(a, b) ==> DiffersAt(a, b, 0);
      forall k: nat | a != [] && DiffersAt(a, b, k) ensures k > 0 ==> a[0] == b[0] { SameHeadBefore(a, b, k); }
    } else {
      FieldLessMeans(a[1..], b[1..]);
      if k: nat :| DiffersAt(a[1..], b[1..], k) {
        assert a[..k + 1] == [a[0]] + a[1..][..k] && b[..k + 1] == [b[0]] + b[1..][..k];
        assert DiffersAt(a, b, k + 1);
      }
      if k: nat :| DiffersAt(a, b, k) {
        assert k > 0;
        assert a[1..][..k - 1] == a[..k][1..] && b[1..][..k - 1] == b[..k][1..];
        assert DiffersAt(a[1..], b[1..], k - 1);
      }
    }
  }

  lemma KeyLessCons(x: seq<int>, k: Key, y: seq<int>, m: Key)
    ensures KeyLess([x] + k, [y] + m) <==> ComesBefore(x, y) || (x == y && KeyLess(k, m))
  {
    FieldLessMeans(x, y);
    assert ([x] + k)[1..] == k && ([y] + m)[1..] == m;
  }

  ghost predicate PairBefore(x1: seq<int>, x2: seq<int>, y1: seq<int>, y2: seq<int>)
  {
    ComesBefore(x1, y1) || (x1 == y1 && ComesBefore(x2, y2))
  }

  lemma KeyLessOne(x: seq<int>, y: seq<int>)
    ensures KeyLess([x], [y]) <==> ComesBefore(x, y)
  {
    KeyLessCons(x, [], y, []);
    assert [x] + [] == [x] && [y] + [] == [y];
  }

  lemma KeyLessTwo(x1: seq<int>, x2: seq<int>, y1: seq<int>, y2: seq<int>)
    ensures KeyLess([x1, x2], [y1, y2]) <==> PairBefore(x1, x2, y1, y2)
  {
    KeyLessCons(x1, [x2], y1, [y2]);
    KeyLessOne(x2, y2);
    assert [x1] + [x2] == [x1, x2] && [y1] + [y2] == [y1, y2];
  }

  /** Sorted without repeated keys. */
  ghost predicate Ascending<T>(s: seq<T>, key: T -> Key)
  {
    forall i, j :: 0 <= i < j < |s| ==> KeyLess(key(s[i]), key(s[j]))
  }

  /** What `sort.Slice` promises: no later element is less than an earlier one. */
  ghost predicate Sorted<T>(s: seq<T>, key: T -> Key)
  {
    forall i, j :: 0 <= i < j < |s| ==> !KeyLess(key(s[j]), key(s[i]))
  }

  ghost predicate Injective<T>(s: seq<T>, key: T -> Key)
  {
    forall x, y :: x in s && y in s && key(x) == key(y) ==> x == y
  }

  function Insert<T>(x: T, s: seq<T>, key: T -> Key): seq<T>
  {
    if s == [] || KeyLess(key(x), key(s[0])) then [x] + s else [s[0]] + Insert(x, s[1..], key)
  }

  /** `sort.Slice`.  By `SortUnique` the choice of algorithm does not matter
      wherever equal keys mean equal elements. */
  function Sort<T>(s: seq<T>, key: T -> Key): seq<T>
  {
    if s == [] then [] else Insert(s[0], Sort(s[1..], key), key)
  }

  lemma {:induction false} InsertSorts<T>(x: T, s: seq<T>, key: T -> Key)
    requires Sorted(s, key)
    ensures Sorted(Insert(x, s, key), key)
    ensures multiset(Insert(x, s, key)) == multiset{x} + multiset(s)
  {
    if s == [] {
    } else if KeyLess(key(x), key(s[0])) {
      forall j | 0 <= j < |s| ensures !KeyLess(key(s[j]), key(x)) {
        if KeyLess(key(s[j]), key(x)) {
          KeyTransitive(key(s[j]), key(x), key(s[0]));
          KeyOrder(key(s[0]), key(s[0]));
        }
      }
    } else {
      var rest := Insert(x, s[1..], key);
      InsertSorts(x, s[1..], key);
      assert s == [s[0]] + s[1..];
      forall j | 0 <= j < |rest| ensures !KeyLess(key(rest[j]), key(s[0])) {
        assert rest[j] in multiset(rest);
        assert rest[j] == x || rest[j] in s[1..];
      }
    }
  }

  lemma {:induction false} SortSorts<T>(s: seq<T>, key: T -> Key)
    ensures Sorted(Sort(s, key), key)
    ensures multiset(Sort(s, key)) == multiset(s)
    ensures |Sort(s, key)| == |s|
    ensures forall x :: x in Sort(s, key) <==> x in s
  {
    if s != [] {
      SortSorts(s[1..], key);
      InsertSorts(s[0], Sort(s[1..], key), key);
      assert s == [s[0]] + s[1..];
    }
    assert |multiset(Sort(s, key))| == |multiset(s)|;
    assert forall x :: x in multiset(s) <==> x in s;
  }

  /** The first elements of two sorted arrangements have the same key. */
  lemma SameHeads<T>(a: seq<T>, b: seq<T>, key: T -> Key)
    requires Sorted(a, key) && Sorted(b, key)
    requires multiset(a) == multiset(b) && a != []
    ensures b != [] && b[0] in a && key(a[0]) == key(b[0])
  {
    assert |b| == |multiset(b)| == |a|;
    assert a[0] in multiset(b);
    var k :| 0 <= k < |b| && b[k] == a[0];
    assert b[0] in multiset(a);
    var m :| 0 <= m < |a| && a[m] == b[0];
    KeyOrder(key(a[0]), key(b[0]));
    KeyOrder(key(a[0]), key(a[0]));
  }

  /** Any two sorted arrangements of the same elements are equal. */
  lemma {:induction false} SortUnique<T>(a: seq<T>, b: seq<T>, key: T -> Key)
    requires Sorted(a, key) && Sorted(b, key)
    requires multiset(a) == multiset(b)
    requires Injective(a, key)
    ensures a == b
    decreases |a|
  {
    if a == [] {
      assert |multiset(b)| == 0;
    } else {
      SameHeads(a, b, key);
      assert a[0] in a;
      SameTails(a, b);
      assert forall x :: x in a[1..] ==> x in a;
      SortUnique(a[1..], b[1..], key);
      assert a == [a[0]] + a[1..] && b == [b[0]] + b[1..];
    }
  }

  lemma SameTails<T>(a: seq<T>, b: seq<T>)
    requires a != [] && b != [] && a[0] == b[0]
    requires multiset(a) == multiset(b)
    ensures multiset(a[1..]) == multiset(b[1..])
  {
    assert a == [a[0]] + a[1..] && b == [b[0]] + b[1..];
    assert multiset(a[1..]) == multiset(a) - multiset{a[0]};
  }

  /** An ascending list is determined by its elements. */
  lemma {:induction false} AscendingUnique<T>(a: seq<T>, b: seq<T>, key: T -> Key)
    requires Ascending(a, key) && Ascending(b, key)
    requires forall x :: x in a <==> x in b
    ensures a == b
  {
    assert b != [] ==> b[0] in b;
    if a != [] {
      assert a[0] in a && a[0] in b;
      assert b[0] in b && b[0] in a;
      KeyOrder(key(a[0]), key(b[0]));
      var a', b' := a[1..], b[1..];
      KeyOrder(key(a[0]), key(a[0]));
      assert a == [a[0]] + a' && b == [b[0]] + b';
      assert forall x :: x in a' ==> KeyLess(key(a[0]), key(x)) && x in b;
      assert forall x :: x in b' ==> KeyLess(key(b[0]), key(x)) && x in a;
      AscendingUnique(a', b', key);
    }
  }

  lemma SortedIsAscending<T>(s: seq<T>, key: T -> Key)
    requires Sorted(s, key) && Injective(s, key)
    requires forall i, j :: 0 <= i < j < |s| ==> s[i] != s[j]
    ensures Ascending(s, key)
  {
    forall i, j | 0 <= i < j < |s| ensures KeyLess(key(s[i]), key(s[j])) {
      KeyOrder(key(s[i]), key(s[j]));
    }
  }

  lemma AscendingIsSorted<T>(s: seq<T>, key: T -> Key)
    requires Ascending(s, key)
    ensures Sorted(s, key) && Injective(s, key)
    ensures forall i, j :: 0 <= i < j < |s| ==> s[i] != s[j]
  {
    forall i, j | 0 <= i < j < |s| ensures !KeyLess(key(s[j]), key(s[i])) && s[i] != s[j] && key(s[i]) != key(s[j]) {
      KeyOrder(key(s[i]), key(s[j]));
    }
  }

  /** The elements of a set in some order, as Go ranges over a map. */
  ghost function Listing<T(!new)>(s: set<T>): (r: seq<T>)
    ensures forall x :: x in r <==> x in s
    ensures |r| == |s|
    ensures forall i, j :: 0 <= i < j < |r| ==> r[i] != r[j]
  {
    if s == {} then [] else
      var x :| x in s;
      [x] + Listing(s - {x})
  }

  ghost predicate Lists<T(!new)>(list: seq<T>, s: set<T>)
  {
    && (forall x :: x in list <==> x in s)
    && (forall i, j :: 0 <= i < j < |list| ==> list[i] != list[j])
  }

  lemma ListsMore<T(!new)>(list: seq<T>, s: set<T>, x: T)
    requires Lists(list, s) && x !in s
    ensures Lists(list + [x], s + {x})
  {
    forall y ensures y in list + [x] <==> y in s + {x} {
      assert y in list + [x] <==> y in list || y == x;
    }
  }

  /** `range` over the keys of a map: each once, in any order. */
  method Range<T(==, !new)>(s: set<T>) returns (list: seq<T>)
    ensures forall x :: x in list <==> x in s
    ensures forall i, j :: 0 <= i < j < |list| ==> list[i] != list[j]
  {
    list := [];
    var todo := s;
    while todo != {}
      invariant todo <= s
      invariant Lists(list, s - todo)
    {
      var x :| x in todo;
      ListsMore(list, s - todo, x);
      assert s - (todo - {x}) == s - todo + {x};
      list := list + [x];
      todo := todo - {x};
    }
  }

  /** The elements of a set in the order of `key`. */
  ghost function SortedListing<T(!new)>(s: set<T>, key: T -> Key): seq<T>
  {
    Sort(Listing(s), key)
  }

  lemma NoRepeats<T>(a: seq<T>, b: seq<T>)
    requires forall i, j :: 0 <= i < j < |a| ==> a[i] != a[j]
    requires multiset(a) == multiset(b)
    ensures forall i, j :: 0 <= i < j < |b| ==> b[i] != b[j]
  {
    forall i, j | 0 <= i < j < |b| ensures b[i] != b[j] {
      if b[i] == b[j] {
        CountTwo(b, i, j);
        assert b[i] in multiset(a);
        CountOne(a, b[i]);
        assert false;
      }
    }
  }

  lemma CountTwo<T>(b: seq<T>, i: nat, j: nat)
    requires i < j < |b| && b[i] == b[j]
    ensures multiset(b)[b[i]] >= 2
  {
    assert b == b[..j] + ([b[j]] + b[j+1..]);
    assert b[i] == b[..j][i];
  }

  lemma {:induction false} CountOne<T>(a: seq<T>, x: T)
    requires forall i, j :: 0 <= i < j < |a| ==> a[i] != a[j]
    requires x in a
    ensures multiset(a)[x] == 1
  {
    assert a == [a[0]] + a[1..];
    if x != a[0] { CountOne(a[1..], x); }
  }

  lemma InjectiveWithin<T>(a: seq<T>, b: seq<T>, key: T -> Key)
    requires Injective(a, key) && multiset(a) == multiset(b)
    ensures Injective(b, key)
  {
    forall x, y | x in b && y in b && key(x) == key(y) ensures x == y {
      assert x in multiset(b) && y in multiset(b);
    }
  }

  /** Sorting distinct elements gives an ascending list. */
  lemma SortAscends<T>(list: seq<T>, key: T -> Key)
    requires forall i, j :: 0 <= i < j < |list| ==> list[i] != list[j]
    requires Injective(list, key)
    ensures Ascending(Sort(list, key), key)
    ensures forall x :: x in Sort(list, key) <==> x in list
    ensures |Sort(list, key)| == |list|
  {
    SortSorts(list, key);
    NoRepeats(list, Sort(list, key));
    InjectiveWithin(list, Sort(list, key), key);
    SortedIsAscending(Sort(list, key), key);
  }

  /** Collecting a set in any order and sorting gives the same ascending list. */
  lemma SortedListingIs<T(!new)>(s: set<T>, list: seq<T>, key: T -> Key)
    requires forall x :: x in list <==> x in s
    requires forall i, j :: 0 <= i < j < |list| ==> list[i] != list[j]
    requires Injective(list, key)
    ensures Sort(list, key) == SortedListing(s, key)
    ensures Ascending(Sort(list, key), key)
    ensures forall x :: x in Sort(list, key) <==> x in s
    ensures |Sort(list, key)| == |s|
  {
    SortAscends(list, key);
    SortAscends(Listing(s), key);
    assert forall x :: x in Sort(list, key) <==> x in list;
    assert forall x :: x in SortedListing(s, key) <==> x in Listing(s);
    AscendingUnique(Sort(list, key), SortedListing(s, key), key);
  }
}
