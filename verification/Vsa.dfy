/** Binary vectors packed into machine words: binding, majority bundling and
    Hamming distance (pkg/vsa/ops.go, pkg/vsa/vector.go). */
module Vsa {

  type Word = bv64

  const ALL: Word := 0xffff_ffff_ffff_ffff

  // ---------- the bits of a word

  function Mask(i: Word): Word
    requires i < 64
  {
    1 << i
  }

  function Xor(a: Word, b: Word): Word { a ^ b }

  function And(a: Word, b: Word): Word { a & b }

  predicate Has(w: Word, m: Word) { w & m != 0 }

  predicate Bit(w: Word, i: Word)
    requires i < 64
  {
    Has(w, Mask(i))
  }

  ghost predicate Single(m: Word) { m != 0 && m & (m - 1) == 0 }

  lemma MaskIsSingle(i: Word)
    requires i < 64
    ensures Single(Mask(i))
  {
  }

  lemma SingleXor(a: Word, b: Word, m: Word)
    requires Single(m)
    ensures Has(a ^ b, m) <==> Has(a, m) != Has(b, m)
  {
  }

  lemma SingleAnd(a: Word, b: Word, m: Word)
    requires Single(m)
    ensures Has(a & b, m) <==> Has(a, m) && Has(b, m)
  {
  }

  lemma OrAnd(a: Word, b: Word, m: Word)
    ensures (a | b) & m == (a & m) | (b & m)
  {
  }

  lemma OrZero(a: Word, b: Word)
    ensures a | b == 0 <==> a == 0 && b == 0
  {
  }

  lemma MasksMeet(i: Word, j: Word)
    requires i < 64 && j < 64
    ensures Has(Mask(i), Mask(j)) <==> i == j
  {
  }

  lemma BitXor(a: Word, b: Word, i: Word)
    requires i < 64
    ensures Bit(Xor(a, b), i) <==> Bit(a, i) != Bit(b, i)
  {
    hide Has, Mask, Single;
    MaskIsSingle(i);
    SingleXor(a, b, Mask(i));
  }

  lemma BitAnd(a: Word, b: Word, i: Word)
    requires i < 64
    ensures Bit(And(a, b), i) <==> Bit(a, i) && Bit(b, i)
  {
    hide Has, Mask, Single;
    MaskIsSingle(i);
    SingleAnd(a, b, Mask(i));
  }

  lemma BitOr(w: Word, i: Word, j: Word)
    requires i < 64 && j < 64
    ensures Bit(w | Mask(i), j) <==> Bit(w, j) || i == j
  {
    MasksMeet(i, j);
    OrAnd(w, Mask(i), Mask(j));
    OrZero(w & Mask(j), Mask(i) & Mask(j));
  }

  lemma NoBit(i: Word)
    requires i < 64
    ensures !Bit(0, i)
  {
  }

  /** The bits below `n`. */
  ghost function Low(n: Word): Word
    requires n <= 64
  {
    if n == 64 then ALL else Mask(n) - 1
  }

  ghost predicate Agree(a: Word, b: Word, l: Word) { a & l == b & l }

  lemma LowStep(n: Word)
    requires n < 64
    ensures Low(n + 1) == Low(n) | Mask(n)
  {
  }

  lemma AgreeOr(a: Word, b: Word, l: Word, m: Word)
    requires Agree(a, b, l) && Single(m) && Has(a, m) == Has(b, m)
    ensures Agree(a, b, l | m)
  {
  }

  lemma AgreeNone(a: Word, b: Word)
    ensures Agree(a, b, Low(0))
  {
  }

  lemma AgreeAll(a: Word, b: Word)
    requires Agree(a, b, Low(64))
    ensures a == b
  {
  }

  lemma AgreeStep(a: Word, b: Word, n: Word)
    requires n < 64 && Bit(a, n) == Bit(b, n) && Agree(a, b, Low(n))
    ensures Agree(a, b, Low(n + 1))
  {
    hide Has, Mask, Single, Low, Agree;
    var low, m, next := Low(n), Mask(n), Low(n + 1);
    assert next == low | m by { LowStep(n); }
    MaskIsSingle(n);
    AgreeOr(a, b, low, m);
  }

  /** A word is its bits. */
  lemma SameBits(a: Word, b: Word)
    requires forall i: Word :: i < 64 ==> Bit(a, i) == Bit(b, i)
    ensures a == b
  {
    hide Bit, Agree, Low;
    var n: Word := 0;
    AgreeNone(a, b);
    while n < 64
      invariant n <= 64 && Agree(a, b, Low(n))
      decreases 64 - n
    {
      AgreeStep(a, b, n);
      n := n + 1;
    }
    AgreeAll(a, b);
  }

  // ---------- counting bits

  /** The bits set below `n`. */
  ghost function Ones(w: Word, n: Word): nat
    requires n <= 64
    decreases n
  {
    if n == 0 then 0 else Ones(w, n - 1) + (if Bit(w, n - 1) then 1 else 0)
  }

  /** `bits.OnesCount64` */
  ghost function OnesCount(w: Word): nat { Ones(w, 64) }

  lemma OnesStep(w: Word, n: Word)
    requires n < 64
    ensures Ones(w, n + 1) == Ones(w, n) + (if Bit(w, n) then 1 else 0)
  {
    hide Bit;
    assert n + 1 != 0 && (n + 1) - 1 == n;
  }

  /** The words whose bit `i` is not `b`. */
  ghost function Against(ws: seq<Word>, i: Word, b: bool): nat
    requires i < 64
    decreases |ws|
  {
    if ws == [] then 0 else
      Against(ws[..|ws| - 1], i, b) + (if Bit(ws[|ws| - 1], i) != b then 1 else 0)
  }

  lemma {:induction false} ForOrAgainst(ws: seq<Word>, i: Word)
    requires i < 64
    ensures Against(ws, i, true) + Against(ws, i, false) == |ws|
    decreases |ws|
  {
    if ws != [] { ForOrAgainst(ws[..|ws| - 1], i); }
  }

  /** How often the words disagree with `x` on the bits below `n`. */
  ghost function Misfit(ws: seq<Word>, x: Word, n: Word): nat
    requires n <= 64
    decreases n
  {
    if n == 0 then 0 else Misfit(ws, x, n - 1) + Against(ws, n - 1, Bit(x, n - 1))
  }

  lemma MisfitStep(ws: seq<Word>, x: Word, n: Word)
    requires n < 64
    ensures Misfit(ws, x, n + 1) == Misfit(ws, x, n) + Against(ws, n, Bit(x, n))
  {
    hide Bit, Against;
    assert n + 1 != 0 && (n + 1) - 1 == n;
  }

  /** The summed distance of the words from `x`. */
  ghost function Total(ws: seq<Word>, x: Word): nat
    decreases |ws|
  {
    if ws == [] then 0 else Total(ws[..|ws| - 1], x) + OnesCount(Xor(ws[|ws| - 1], x))
  }

  lemma MisfitNone(x: Word)
    ensures Misfit([], x, 64) == 0
  {
    hide Bit;
    var n: Word := 0;
    while n < 64
      invariant n <= 64 && Misfit([], x, n) == 0
      decreases 64 - n
    {
      MisfitStep([], x, n);
      n := n + 1;
    }
  }

  lemma AgainstLast(ws: seq<Word>, x: Word, n: Word)
    requires ws != [] && n < 64
    ensures Against(ws, n, Bit(x, n)) == Against(ws[..|ws| - 1], n, Bit(x, n)) + (if Bit(Xor(ws[|ws| - 1], x), n) then 1 else 0)
  {
    hide Bit, Xor;
    BitXor(ws[|ws| - 1], x, n);
  }

  lemma MisfitLast(ws: seq<Word>, x: Word)
    requires ws != []
    ensures Misfit(ws, x, 64) == Misfit(ws[..|ws| - 1], x, 64) + OnesCount(Xor(ws[|ws| - 1], x))
  {
    hide Bit, Against, Xor;
    var rest, w := ws[..|ws| - 1], Xor(ws[|ws| - 1], x);
    var n: Word := 0;
    while n < 64
      invariant n <= 64 && Misfit(ws, x, n) == Misfit(rest, x, n) + Ones(w, n)
      decreases 64 - n
    {
      MisfitStep(ws, x, n);
      MisfitStep(rest, x, n);
      OnesStep(w, n);
      AgainstLast(ws, x, n);
      n := n + 1;
    }
  }

  /** Summing distances word by word or bit by bit is the same. */
  lemma {:induction false} TotalIsMisfit(ws: seq<Word>, x: Word)
    ensures Total(ws, x) == Misfit(ws, x, 64)
    decreases |ws|
  {
    hide Misfit, OnesCount, Xor;
    if ws == [] {
      MisfitNone(x);
    } else {
      TotalIsMisfit(ws[..|ws| - 1], x);
      MisfitLast(ws, x);
    }
  }

  /** Bit by bit, `m` is what more than half of the words say. */
  ghost predicate Majority(ws: seq<Word>, m: Word)
  {
    forall i: Word :: i < 64 ==> (Bit(m, i) <==> Against(ws, i, false) >= |ws| / 2 + 1)
  }

  lemma MajorityBit(ws: seq<Word>, m: Word, x: Word, i: Word)
    requires |ws| % 2 == 1 && Majority(ws, m) && i < 64
    ensures Against(ws, i, Bit(m, i)) <= Against(ws, i, Bit(x, i))
    ensures Against(ws, i, Bit(m, i)) == Against(ws, i, Bit(x, i)) ==> Bit(m, i) == Bit(x, i)
  {
    hide Bit, Against;
    ForOrAgainst(ws, i);
  }

  /** The majority word is the one word of least summed distance. */
  lemma MajorityFits(ws: seq<Word>, m: Word, x: Word)
    requires |ws| % 2 == 1 && Majority(ws, m)
    ensures Total(ws, m) <= Total(ws, x)
    ensures Total(ws, m) == Total(ws, x) ==> m == x
  {
    hide Bit, Against, Majority, Total;
    TotalIsMisfit(ws, m);
    TotalIsMisfit(ws, x);
    var n: Word := 0;
    while n < 64
      invariant n <= 64 && Misfit(ws, m, n) <= Misfit(ws, x, n)
      invariant Misfit(ws, m, n) == Misfit(ws, x, n) ==> forall i: Word :: i < n ==> Bit(m, i) == Bit(x, i)
      decreases 64 - n
    {
      MisfitStep(ws, m, n);
      MisfitStep(ws, x, n);
      MajorityBit(ws, m, x, n);
      n := n + 1;
    }
    if Misfit(ws, m, 64) == Misfit(ws, x, 64) { SameBits(m, x); }
  }

  lemma {:induction false} SomeoneVoted(ws: seq<Word>, i: Word)
    requires i < 64 && Against(ws, i, false) > 0
    ensures exists w :: w in ws && Bit(w, i)
    decreases |ws|
  {
    hide Bit;
    if !Bit(ws[|ws| - 1], i) {
      SomeoneVoted(ws[..|ws| - 1], i);
    }
  }

  /** Bits that no word uses are not in the majority either. */
  lemma MajorityStaysWithin(ws: seq<Word>, m: Word, used: Word)
    requires Majority(ws, m) && forall w :: w in ws ==> And(w, used) == w
    ensures And(m, used) == m
  {
    hide Bit, Against, And;
    forall i: Word | i < 64 ensures Bit(And(m, used), i) == Bit(m, i) {
      BitAnd(m, used, i);
      if Bit(m, i) {
        SomeoneVoted(ws, i);
        var w :| w in ws && Bit(w, i);
        BitAnd(w, used, i);
      }
    }
    SameBits(And(m, used), m);
  }

  // ---------- vectors as values

  ghost function DistanceBelow(a: seq<Word>, b: seq<Word>, n: nat): nat
    requires n <= |a| == |b|
    decreases n
  {
    if n == 0 then 0 else DistanceBelow(a, b, n - 1) + OnesCount(Xor(a[n - 1], b[n - 1]))
  }

  /** The Hamming distance. */
  ghost function Distance(a: seq<Word>, b: seq<Word>): nat
    requires |a| == |b|
  {
    DistanceBelow(a, b, |a|)
  }

  lemma {:induction false} OnesWithBit(w: Word, i: Word, n: Word)
    requires i < 64 && n <= 64 && !Bit(w, i)
    ensures Ones(w | Mask(i), n) == Ones(w, n) + (if i < n then 1 else 0)
    decreases n
  {
    hide Bit, Mask;
    if n > 0 {
      OnesWithBit(w, i, n - 1);
      BitOr(w, i, n - 1);
    }
  }

  lemma FlippedXor(a: Word, b: Word, m: Word)
    requires Single(m) && !Has(Xor(a, b), m)
    ensures Xor(a, Xor(b, m)) == Xor(a, b) | m
  {
  }

  lemma FlippedCount(a: Word, b: Word, i: Word)
    requires i < 64 && Bit(a, i) == Bit(b, i)
    ensures OnesCount(Xor(a, Xor(b, Mask(i)))) == OnesCount(Xor(a, b)) + 1
  {
    hide Xor, Mask, Has, Single;
    BitXor(a, b, i);
    MaskIsSingle(i);
    FlippedXor(a, b, Mask(i));
    OnesWithBit(Xor(a, b), i, 64);
  }

  lemma {:induction false} FlippedBelow(a: seq<Word>, b: seq<Word>, k: nat, i: Word, n: nat)
    requires k < |a| == |b| && n <= |a| && i < 64 && Bit(a[k], i) == Bit(b[k], i)
    ensures DistanceBelow(a, b[k := Xor(b[k], Mask(i))], n) == DistanceBelow(a, b, n) + (if k < n then 1 else 0)
    decreases n
  {
    hide Xor, Mask, Bit, OnesCount;
    if n > 0 {
      FlippedBelow(a, b, k, i, n - 1);
      if k == n - 1 { FlippedCount(a[k], b[k], i); }
    }
  }

  lemma {:induction false} NoOnes(n: Word)
    requires n <= 64
    ensures Ones(0, n) == 0
    decreases n
  {
    hide Bit;
    if n > 0 {
      NoOnes(n - 1);
      NoBit(n - 1);
    }
  }

  lemma SameIsZero(w: Word)
    ensures Xor(w, w) == 0
  {
  }

  lemma NoneDiffer(w: Word)
    ensures OnesCount(Xor(w, w)) == 0
  {
    hide Xor;
    SameIsZero(w);
    NoOnes(64);
  }

  lemma {:induction false} NoDistance(a: seq<Word>, n: nat)
    requires n <= |a|
    ensures DistanceBelow(a, a, n) == 0
    decreases n
  {
    hide Xor, OnesCount;
    if n > 0 {
      NoDistance(a, n - 1);
      NoneDiffer(a[n - 1]);
    }
  }

  /** The Hamming distance counts bits: it is zero from a vector to itself, and
      flipping one bit on which two vectors agree adds one to it. */
  lemma DistanceCounts(a: seq<Word>, b: seq<Word>, k: nat, i: Word)
    requires k < |a| == |b| && i < 64 && Bit(a[k], i) == Bit(b[k], i)
    ensures Distance(a, a) == 0
    ensures Distance(a, b[k := Xor(b[k], Mask(i))]) == Distance(a, b) + 1
  {
    hide Xor, Mask, Bit, DistanceBelow;
    NoDistance(a, |a|);
    FlippedBelow(a, b, k, i, |a|);
  }

  ghost predicate SameLength(vs: seq<seq<Word>>, n: nat) { forall v :: v in vs ==> |v| == n }

  ghost function TotalDistance(vs: seq<seq<Word>>, x: seq<Word>): nat
    requires SameLength(vs, |x|)
    decreases |vs|
  {
    if vs == [] then 0 else TotalDistance(vs[..|vs| - 1], x) + Distance(vs[|vs| - 1], x)
  }

  ghost function Column(vs: seq<seq<Word>>, k: nat): seq<Word>
    requires forall v :: v in vs ==> k < |v|
  {
    seq(|vs|, j requires 0 <= j < |vs| => vs[j][k])
  }

  /** Every word is the majority of its column. */
  ghost predicate Bundles(vs: seq<seq<Word>>, m: seq<Word>)
    requires SameLength(vs, |m|)
  {
    forall k :: 0 <= k < |m| ==> Majority(Column(vs, k), m[k])
  }

  ghost function TotalByColumn(vs: seq<seq<Word>>, x: seq<Word>, n: nat): nat
    requires SameLength(vs, |x|) && n <= |x|
    decreases n
  {
    if n == 0 then 0 else TotalByColumn(vs, x, n - 1) + Total(Column(vs, n - 1), x[n - 1])
  }

  lemma {:induction false} ColumnsOfNone(x: seq<Word>, n: nat)
    requires n <= |x|
    ensures TotalByColumn([], x, n) == 0
    decreases n
  {
    if n > 0 { ColumnsOfNone(x, n - 1); }
  }

  lemma TotalOfLast(vs: seq<seq<Word>>, x: Word, k: nat)
    requires vs != [] && forall v :: v in vs ==> k < |v|
    ensures Total(Column(vs, k), x) == Total(Column(vs[..|vs| - 1], k), x) + OnesCount(Xor(vs[|vs| - 1][k], x))
  {
    hide OnesCount, Xor;
    var c := Column(vs, k);
    assert c[..|c| - 1] == Column(vs[..|vs| - 1], k);
  }

  lemma {:induction false} ColumnsOfLast(vs: seq<seq<Word>>, x: seq<Word>, n: nat)
    requires vs != [] && SameLength(vs, |x|) && n <= |x|
    ensures TotalByColumn(vs, x, n) == TotalByColumn(vs[..|vs| - 1], x, n) + DistanceBelow(vs[|vs| - 1], x, n)
    decreases n
  {
    hide OnesCount, Total, Column, Xor;
    if n > 0 {
      ColumnsOfLast(vs, x, n - 1);
      TotalOfLast(vs, x[n - 1], n - 1);
    }
  }

  /** Summing over vectors or over columns is the same. */
  lemma {:induction false} TotalIsByColumn(vs: seq<seq<Word>>, x: seq<Word>)
    requires SameLength(vs, |x|)
    ensures TotalDistance(vs, x) == TotalByColumn(vs, x, |x|)
    decreases |vs|
  {
    if vs == [] {
      ColumnsOfNone(x, |x|);
    } else {
      TotalIsByColumn(vs[..|vs| - 1], x);
      ColumnsOfLast(vs, x, |x|);
    }
  }

  lemma {:induction false} ColumnsFit(vs: seq<seq<Word>>, m: seq<Word>, x: seq<Word>, n: nat)
    requires |vs| % 2 == 1 && |m| == |x| && SameLength(vs, |m|) && Bundles(vs, m) && n <= |m|
    ensures TotalByColumn(vs, m, n) <= TotalByColumn(vs, x, n)
    ensures TotalByColumn(vs, m, n) == TotalByColumn(vs, x, n) ==> m[..n] == x[..n]
    decreases n
  {
    hide Majority, Total;
    if n > 0 {
      ColumnsFit(vs, m, x, n - 1);
      MajorityFits(Column(vs, n - 1), m[n - 1], x[n - 1]);
      assert m[..n] == m[..n - 1] + [m[n - 1]] && x[..n] == x[..n - 1] + [x[n - 1]];
    }
  }

  /** The bundle of an odd number of vectors is the one vector whose summed
      Hamming distance to them is least. */
  lemma BundleIsMedian(vs: seq<seq<Word>>, m: seq<Word>, x: seq<Word>)
    requires |vs| % 2 == 1 && |m| == |x| && SameLength(vs, |m|) && Bundles(vs, m)
    ensures TotalDistance(vs, m) <= TotalDistance(vs, x)
    ensures TotalDistance(vs, m) == TotalDistance(vs, x) <==> x == m
  {
    TotalIsByColumn(vs, m);
    TotalIsByColumn(vs, x);
    ColumnsFit(vs, m, x, |m|);
    assert m[..|m|] == m && x[..|x|] == x;
  }

  /** Word-wise exclusive or. */
  ghost function Bound(a: seq<Word>, b: seq<Word>): seq<Word>
    requires |a| == |b|
  {
    seq(|a|, k requires 0 <= k < |a| => Xor(a[k], b[k]))
  }

  lemma XorCancels(a: Word, b: Word, k: Word)
    ensures Xor(Xor(a, k), Xor(b, k)) == Xor(a, b) && Xor(Xor(a, k), k) == a
  {
  }

  lemma BoundAt(a: seq<Word>, b: seq<Word>, key: seq<Word>, k: nat)
    requires k < |a| == |b| == |key|
    ensures |Bound(a, key)| == |Bound(b, key)| == |a|
    ensures Xor(Bound(a, key)[k], Bound(b, key)[k]) == Xor(a[k], b[k])
  {
    hide Xor;
    XorCancels(a[k], b[k], key[k]);
  }

  lemma {:induction false} BindingBelow(a: seq<Word>, b: seq<Word>, key: seq<Word>, n: nat)
    requires n <= |a| == |b| == |key|
    ensures DistanceBelow(Bound(a, key), Bound(b, key), n) == DistanceBelow(a, b, n)
    decreases n
  {
    hide OnesCount, Bound, Xor;
    if n > 0 {
      BindingBelow(a, b, key, n - 1);
      BoundAt(a, b, key, n - 1);
    }
  }

  /** Binding by a common key keeps distances, and binding again undoes it. */
  lemma BindingKeepsDistance(a: seq<Word>, b: seq<Word>, key: seq<Word>)
    requires |a| == |b| == |key|
    ensures Distance(Bound(a, key), Bound(b, key)) == Distance(a, b)
    ensures Bound(Bound(a, key), key) == a
  {
    hide Xor;
    BindingBelow(a, b, key, |a|);
    forall k | 0 <= k < |a| ensures Bound(Bound(a, key), key)[k] == a[k] { XorCancels(a[k], b[k], key[k]); }
  }

  // ---------- the program

  /** The errors of the package; `OutOfRange` stands for the run-time panic. */
  datatype Error = DimensionMismatch | EmptyInput | EvenInput | InvalidDimension | OutOfRange

  datatype Result<+T> = Ok(value: T) | Err(error: Error)

  /** `Vector` (vector.go:8-11). */
  datatype Vector = Vector(words: array<Word>, bits: nat) {
    /** As many words as the bits need.  All vectors have this shape except some
        that are unmarshalled: the header's two numbers are not compared. */
    predicate Shaped() { words.Length == WordsFor(bits) }

    predicate SameShape(v: Vector) { bits == v.bits && words.Length == v.words.Length }
  }

  function WordsFor(bits: nat): nat { (bits + 63) / 64 }

  /** The bits in use of the last of so many words; a shift by the word's length
      or more leaves none. */
  function Used(words: nat, bits: nat): Word
  {
    var unused := words * 64 - bits;
    if unused <= 0 then ALL else if unused >= 64 then 0 else ALL >> unused
  }

  ghost predicate Clear(words: seq<Word>, bits: nat)
  {
    words != [] ==> And(words[|words| - 1], Used(|words|, bits)) == words[|words| - 1]
  }

  ghost function Masked(words: seq<Word>, bits: nat): seq<Word>
  {
    if words == [] then [] else words[|words| - 1 := And(words[|words| - 1], Used(|words|, bits))]
  }

  lemma AndTwice(w: Word, m: Word)
    ensures And(And(w, m), m) == And(w, m)
  {
  }

  lemma MaskedIsClear(words: seq<Word>, bits: nat)
    ensures Clear(Masked(words, bits), bits)
    ensures Clear(words, bits) ==> Masked(words, bits) == words
  {
    hide Used, And;
    if words != [] { AndTwice(words[|words| - 1], Used(|words|, bits)); }
  }

  // ---------- which bits are used

  function Number(w: Word): nat { w as nat }

  function Plus(a: Word, b: Word): Word { a + b }

  predicate Below(a: Word, b: Word) { a < b }

  lemma NextNumber(w: Word)
    requires Below(w, 127)
    ensures Number(Plus(w, 1)) == Number(w) + 1
  {
  }

  lemma PlusNext(i: Word, u: Word)
    requires Below(i, 64) && Below(u, 63)
    ensures Plus(i, Plus(u, 1)) == Plus(Plus(i, u), 1) && Below(Plus(i, u), 127) && Below(u, 127)
  {
  }

  lemma PlusZero(i: Word)
    ensures Plus(i, 0) == i && Number(0) == 0
  {
  }

  lemma NumberBelow(u: Word)
    ensures Number(u) < 63 ==> Below(u, 63)
    ensures Number(u) < 64 ==> Below(u, 64)
  {
  }

  lemma SumBelow(i: Word, u: Word)
    requires Below(i, 64) && Below(u, 64)
    ensures Below(Plus(i, u), 64) <==> Number(Plus(i, u)) < 64
  {
  }

  /** The word of a small number, and what adding it to `i` gives. */
  lemma {:induction false} WordOf(n: nat, i: Word) returns (u: Word)
    requires n < 64 && Below(i, 64)
    ensures Number(u) == n && Number(Plus(i, u)) == Number(i) + n && Below(u, 64) && (n < 63 ==> Below(u, 63))
  {
    hide Number, Plus, Below;
    PlusZero(i);
    if n == 0 {
      u := 0;
    } else {
      var v := WordOf(n - 1, i);
      PlusNext(i, v);
      NextNumber(v);
      NextNumber(Plus(i, v));
      u := Plus(v, 1);
    }
    NumberBelow(u);
  }

  function AsWord(n: nat): Word
    requires n < 64
  {
    n as Word
  }

  function Shifted(n: nat): Word
    requires n < 64
  {
    ALL >> n
  }

  function ShiftedBy(u: Word): Word
    requires u < 64
  {
    ALL >> u
  }

  lemma AsWordSmall(n: nat)
    requires n < 64
    ensures AsWord(n) < 64
  {
  }

  lemma ShiftByWord(n: nat)
    requires n < 64 && AsWord(n) < 64
    ensures Shifted(n) == ShiftedBy(AsWord(n))
  {
  }

  lemma NumberBack(u: Word)
    requires Number(u) < 64
    ensures AsWord(Number(u)) == u
  {
  }

  lemma ShiftedBit(u: Word, i: Word)
    requires u < 64 && i < 64
    ensures ((0xffff_ffff_ffff_ffff as Word) >> u) & ((1 as Word) << i) != 0 <==> i + u < 64
  {
  }

  lemma ShiftedByBit(u: Word, i: Word)
    requires u < 64 && i < 64
    ensures Bit(ShiftedBy(u), i) <==> Below(Plus(i, u), 64)
  {
    ShiftedBit(u, i);
  }

  lemma ShiftKeeps(n: nat, i: Word)
    requires n < 64 && i < 64
    ensures Bit(Shifted(n), i) <==> Number(i) + n < 64
  {
    hide Number, Shifted, AsWord, Bit, ShiftedBy, Plus;
    var u := WordOf(n, i);
    AsWordSmall(n);
    ShiftByWord(n);
    NumberBack(u);
    ShiftedByBit(u, i);
    SumBelow(i, u);
  }

  lemma AllBits(i: Word)
    requires i < 64
    ensures Bit(ALL, i) && Number(i) < 64
  {
  }

  lemma UsedIs(words: nat, bits: nat)
    ensures var unused := words * 64 - bits;
            Used(words, bits) == if unused <= 0 then ALL else if unused >= 64 then 0 else Shifted(unused)
  {
  }

  /** The bits in use are the low ones: as many as the bits before do not fill. */
  lemma UsedBits(words: nat, bits: nat, i: Word)
    requires words > 0 && i < 64
    ensures Bit(Used(words, bits), i) <==> 64 * (words - 1) + Number(i) < bits
  {
    hide Bit, Number, Used, Shifted;
    UsedIs(words, bits);
    AllBits(i);
    NoBit(i);
    var unused := words * 64 - bits;
    if 0 < unused < 64 { ShiftKeeps(unused, i); }
  }

  /** Masking keeps every bit of the words before the last, and of the last those in use. */
  lemma MaskedBits(words: seq<Word>, bits: nat, k: nat, i: Word)
    requires k < |words| && i < 64
    ensures |Masked(words, bits)| == |words|
    ensures Bit(Masked(words, bits)[k], i) <==> Bit(words[k], i) && (k == |words| - 1 ==> 64 * k + Number(i) < bits)
  {
    hide Bit, Number, Used, And;
    UsedBits(|words|, bits, i);
    BitAnd(words[|words| - 1], Used(|words|, bits), i);
  }

  /** Of the bits of the last of so many words, just those in use are left. */
  ghost predicate LeavesUsed(was: Word, now: Word, words: nat, bits: nat)
  {
    forall i: Word :: i < 64 ==> (Bit(now, i) <==> Bit(was, i) && 64 * (words - 1) + Number(i) < bits)
  }

  lemma MaskLeavesUsed(words: seq<Word>, bits: nat)
    requires words != []
    ensures LeavesUsed(words[|words| - 1], Masked(words, bits)[|words| - 1], |words|, bits)
  {
    hide Bit, Number, Masked;
    MaskedLength(words, bits);
    forall i: Word | i < 64
      ensures Bit(Masked(words, bits)[|words| - 1], i) <==>
              Bit(words[|words| - 1], i) && 64 * (|words| - 1) + Number(i) < bits
    {
      MaskedBits(words, bits, |words| - 1, i);
    }
  }

  /** `maskUnusedBits` (vector.go:49-56). */
  method MaskUnusedBits(v: Vector)
    modifies v.words
    ensures v.words[..] == Masked(old(v.words[..]), v.bits)
    ensures v.words.Length > 0 ==>
              var k := v.words.Length - 1; LeavesUsed(old(v.words[k]), v.words[k], v.words.Length, v.bits)
  {
    hide And, LeavesUsed;
    ghost var was := v.words[..];
    if was != [] { MaskLeavesUsed(was, v.bits); }
    var unused := v.words.Length * 64 - v.bits;
    if unused <= 0 {
      AllUsed(v.words[..], v.bits);
      return;
    }
    var mask := if unused >= 64 then 0 else ALL >> unused;
    v.words[v.words.Length - 1] := And(v.words[v.words.Length - 1], mask);
    assert v.words[..] == Masked(was, v.bits);
  }

  lemma AllUsed(words: seq<Word>, bits: nat)
    requires |words| * 64 - bits <= 0
    ensures Masked(words, bits) == words
  {
    hide And;
    if words != [] { AndAll(words[|words| - 1]); }
  }

  lemma AndAll(w: Word)
    ensures And(w, ALL) == w
  {
  }

  /** `NewZero` (vector.go:13-19). */
  method NewZero(bits: int) returns (r: Result<Vector>)
    ensures r.Err? <==> bits <= 0
    ensures r.Ok? ==> fresh(r.value.words) && r.value.Shaped() && r.value.bits == bits
    ensures r.Ok? ==> 64 * (r.value.words.Length - 1) < bits <= 64 * r.value.words.Length
    ensures r.Ok? ==> forall k :: 0 <= k < r.value.words.Length ==> r.value.words[k] == 0
  {
    if bits <= 0 {
      return Err(InvalidDimension);
    }
    var words := new Word[WordsFor(bits)](_ => 0);
    r := Ok(Vector(words, bits));
  }

  /** `BindXOR` (ops.go:8-18). */
  method BindXOR(a: Vector, b: Vector) returns (r: Result<Vector>)
    ensures r.Err? <==> !a.SameShape(b)
    ensures r.Ok? ==> fresh(r.value.words) && r.value.SameShape(a)
    ensures r.Ok? ==> r.value.words[..] == Masked(Bound(a.words[..], b.words[..]), a.bits)
  {
    hide Xor, And, Used;
    if !a.SameShape(b) {
      return Err(DimensionMismatch);
    }
    var out := new Word[a.words.Length](i requires 0 <= i < a.words.Length reads a.words => a.words[i]);
    for i := 0 to out.Length
      invariant forall k :: 0 <= k < i ==> out[k] == Xor(a.words[k], b.words[k])
      invariant forall k :: i <= k < out.Length ==> out[k] == a.words[k]
    {
      out[i] := Xor(out[i], b.words[i]);
    }
    assert out[..] == Bound(a.words[..], b.words[..]);
    var v := Vector(out, a.bits);
    MaskUnusedBits(v);
    r := Ok(v);
  }

  /** The unused bits of a binding are clear without masking. */
  lemma BoundIsClear(a: seq<Word>, b: seq<Word>, bits: nat)
    requires |a| == |b| && Clear(a, bits) && Clear(b, bits)
    ensures Masked(Bound(a, b), bits) == Bound(a, b)
  {
    hide Used, Xor, And;
    if a != [] { XorWithin(a[|a| - 1], b[|b| - 1], Used(|a|, bits)); }
  }

  lemma XorWithin(a: Word, b: Word, used: Word)
    requires And(a, used) == a && And(b, used) == b
    ensures And(Xor(a, b), used) == Xor(a, b)
  {
  }

  /** The Hamming count of `Similarity` (ops.go:62-73). */
  method Differences(a: Vector, b: Vector) returns (r: Result<nat>)
    ensures r.Err? <==> !a.SameShape(b) || a.bits == 0
    ensures r.Ok? ==> r.value == Distance(a.words[..], b.words[..])
  {
    hide Xor, OnesCount;
    if !a.SameShape(b) {
      return Err(DimensionMismatch);
    }
    if a.bits == 0 {
      return Err(InvalidDimension);
    }
    var diff := 0;
    for i := 0 to a.words.Length
      invariant diff == DistanceBelow(a.words[..], b.words[..], i)
    {
      var n := CountOnes(Xor(a.words[i], b.words[i]));
      diff := diff + n;
    }
    r := Ok(diff);
  }

  /** `bits.OnesCount64` */
  method CountOnes(w: Word) returns (n: nat)
    ensures n == OnesCount(w)
  {
    hide Bit;
    n := 0;
    var i: Word := 0;
    while i < 64
      invariant i <= 64 && n == Ones(w, i)
      decreases 64 - i
    {
      OnesStep(w, i);
      if Bit(w, i) { n := n + 1; }
      i := i + 1;
    }
  }

  ghost function Values(vs: seq<Vector>): seq<seq<Word>>
    reads set v | v in vs :: v.words
  {
    seq(|vs|, j requires 0 <= j < |vs| reads set v | v in vs :: v.words => vs[j].words[..])
  }

  lemma AgainstMore(ws: seq<Word>, n: nat, i: Word)
    requires n < |ws| && i < 64
    ensures Against(ws[..n + 1], i, false) == Against(ws[..n], i, false) + (if Bit(ws[n], i) then 1 else 0)
  {
    assert ws[..n + 1][..n] == ws[..n];
  }

  /** The vote on one bit (ops.go:43-52). */
  method Vote(vs: seq<Vector>, wi: nat, bi: Word, ghost ws: seq<Word>) returns (count: nat)
    requires bi < 64 && |ws| == |vs|
    requires forall j :: 0 <= j < |vs| ==> wi < vs[j].words.Length && ws[j] == vs[j].words[wi]
    ensures count == Against(ws, bi, false)
  {
    hide Bit, Against;
    var bitMask := Mask(bi);
    count := 0;
    assert ws[..0] == [];
    NoneAgainst(bi);
    for j := 0 to |vs|
      invariant count == Against(ws[..j], bi, false)
    {
      AgainstMore(ws, j, bi);
      BitIs(ws[j], bi);
      if vs[j].words[wi] & bitMask != 0 {
        count := count + 1;
      }
    }
    assert ws[..|vs|] == ws;
  }

  lemma NoneAgainst(i: Word)
    requires i < 64
    ensures Against([], i, false) == 0
  {
  }

  lemma BitIs(w: Word, i: Word)
    requires i < 64
    ensures Bit(w, i) <==> w & Mask(i) != 0
  {
  }

  /** One word of the bundle (ops.go:41-54). */
  method MajorityWord(vs: seq<Vector>, wi: nat, threshold: nat, ghost ws: seq<Word>) returns (word: Word)
    requires |ws| == |vs| && threshold == |vs| / 2 + 1
    requires forall j :: 0 <= j < |vs| ==> wi < vs[j].words.Length && ws[j] == vs[j].words[wi]
    ensures Majority(ws, word)
  {
    hide Bit, Against, Mask;
    word := 0;
    forall i: Word | i < 64 ensures !Bit(word, i) { NoBit(i); }
    var bi: Word := 0;
    while bi < 64
      invariant bi <= 64
      invariant forall i: Word :: i < 64 ==> (Bit(word, i) <==> i < bi && Against(ws, i, false) >= threshold)
      decreases 64 - bi
    {
      var count := Vote(vs, wi, bi, ws);
      if count >= threshold {
        forall i: Word | i < 64 ensures Bit(word | Mask(bi), i) <==> Bit(word, i) || i == bi { BitOr(word, bi, i); }
        word := word | Mask(bi);
      }
      bi := bi + 1;
    }
  }

  /** The result vector, where the constructor's error is ignored (ops.go:37). */
  method ZeroOrEmpty(bits: nat) returns (v: Vector)
    ensures fresh(v.words) && v.Shaped() && v.bits == bits
    ensures forall k :: 0 <= k < v.words.Length ==> v.words[k] == 0
  {
    var zero := NewZero(bits);
    if zero.Ok? {
      return zero.value;
    }
    var none := new Word[0];
    return Vector(none, 0);
  }

  /** Where the inputs use no other bits, neither does their bundle. */
  lemma BundleIsClear(vs: seq<seq<Word>>, m: seq<Word>, bits: nat)
    requires SameLength(vs, |m|) && Bundles(vs, m) && forall j :: 0 <= j < |vs| ==> Clear(vs[j], bits)
    ensures Clear(m, bits)
  {
    hide Used, Majority, And;
    if m != [] {
      var k := |m| - 1;
      var c := Column(vs, k);
      forall w | w in c ensures And(w, Used(|m|, bits)) == w {
        var j :| 0 <= j < |c| && c[j] == w;
        assert vs[j] in vs;
      }
      MajorityStaysWithin(c, m[k], Used(|m|, bits));
    }
  }

  function ZeroWords(k: nat): seq<Word> { seq(k, _ => 0) }

  /** The words are the majorities and zeros after them, with the unused bits cleared. */
  ghost predicate BundlesMasked(vs: seq<seq<Word>>, words: seq<Word>, bits: nat)
  {
    exists m: seq<Word> ::
      |m| <= |words| && SameLength(vs, |m|) && Bundles(vs, m) && words == Masked(m + ZeroWords(|words| - |m|), bits)
  }

  /** The loop over the words (ops.go:40-57), and the mask after it. */
  method FillMajority(vs: seq<Vector>, out: Vector)
    requires |vs| > 0
    requires forall j :: 0 <= j < |vs| ==> vs[0].SameShape(vs[j]) && out.words != vs[j].words
    requires vs[0].words.Length <= out.words.Length && out.bits == vs[0].bits
    requires forall k :: 0 <= k < out.words.Length ==> out.words[k] == 0
    modifies out.words
    ensures BundlesMasked(Values(vs), out.words[..], out.bits) && Clear(out.words[..], out.bits)
    ensures vs[0].words.Length == out.words.Length && (forall j :: 0 <= j < |vs| ==> Clear(vs[j].words[..], out.bits)) ==>
              SameLength(Values(vs), out.words.Length) && Bundles(Values(vs), out.words[..])
  {
    hide Majority, Clear, Masked, Bundles, BundlesMasked, LeavesUsed, Column;
    var threshold := |vs| / 2 + 1;
    var wordsCount := vs[0].words.Length;
    ghost var values := Values(vs);
    assert SameLength(values, wordsCount);
    for wi := 0 to wordsCount
      invariant Values(vs) == values
      invariant forall k :: 0 <= k < wi ==> Majority(Column(values, k), out.words[k])
      invariant forall k :: wi <= k < out.words.Length ==> out.words[k] == 0
    {
      ColumnHolds(values, wi);
      var word := MajorityWord(vs, wi, threshold, Column(values, wi));
      out.words[wi] := word;
    }
    ghost var before := out.words[..];
    MaskedIsClear(before, out.bits);
    MajoritiesThenZeros(values, before, wordsCount, out.bits);
    MaskUnusedBits(out);
  }

  lemma ColumnHolds(vs: seq<seq<Word>>, k: nat)
    requires forall v :: v in vs ==> k < |v|
    ensures |Column(vs, k)| == |vs| && forall j :: 0 <= j < |vs| ==> Column(vs, k)[j] == vs[j][k]
  {
  }

  lemma MajoritiesThenZeros(vs: seq<seq<Word>>, words: seq<Word>, count: nat, bits: nat)
    requires count <= |words| && SameLength(vs, count)
    requires forall k :: 0 <= k < count ==> Majority(Column(vs, k), words[k])
    requires forall k :: count <= k < |words| ==> words[k] == 0
    ensures BundlesMasked(vs, Masked(words, bits), bits)
    ensures count == |words| && (forall j :: 0 <= j < |vs| ==> Clear(vs[j], bits)) ==>
              |Masked(words, bits)| == count && Bundles(vs, Masked(words, bits))
  {
    hide Majority, Clear, Masked;
    var m := words[..count];
    MaskedLength(words, bits);
    assert words == m + ZeroWords(|words| - |m|);
    if count == |words| && forall j :: 0 <= j < |vs| ==> Clear(vs[j], bits) {
      assert m == words;
      BundleIsClear(vs, words, bits);
      MaskedIsClear(words, bits);
    }
  }

  lemma MaskedLength(words: seq<Word>, bits: nat)
    ensures |Masked(words, bits)| == |words|
  {
  }

  /** `BundleMajority` (ops.go:21-59).  Vectors with more words than their bits
      need, which only unmarshalling makes, run past the end of the result. */
  method BundleMajority(vs: seq<Vector>) returns (r: Result<Vector>)
    ensures r == Err(EmptyInput) <==> vs == []
    ensures r == Err(EvenInput) <==> vs != [] && |vs| % 2 == 0
    ensures r == Err(DimensionMismatch) <==> |vs| % 2 == 1 && exists j :: 0 <= j < |vs| && !vs[0].SameShape(vs[j])
    ensures r == Err(OutOfRange) <==>
              && |vs| % 2 == 1 && (forall j :: 0 <= j < |vs| ==> vs[0].SameShape(vs[j]))
              && vs[0].words.Length > WordsFor(vs[0].bits)
    ensures r != Err(InvalidDimension)
    ensures r.Ok? ==> fresh(r.value.words) && r.value.Shaped() && r.value.bits == vs[0].bits
    ensures r.Ok? ==> BundlesMasked(Values(vs), r.value.words[..], r.value.bits) && Clear(r.value.words[..], r.value.bits)
    ensures r.Ok? && (forall j :: 0 <= j < |vs| ==> vs[j].Shaped() && Clear(vs[j].words[..], vs[j].bits)) ==>
              SameLength(Values(vs), r.value.words.Length) && Bundles(Values(vs), r.value.words[..])
  {
    hide Clear, Bundles, BundlesMasked, Used;
    if |vs| == 0 {
      return Err(EmptyInput);
    }
    if |vs| % 2 == 0 {
      return Err(EvenInput);
    }
    for j := 0 to |vs|
      invariant forall k :: 0 <= k < j ==> vs[0].SameShape(vs[k])
    {
      if !vs[0].SameShape(vs[j]) {
        return Err(DimensionMismatch);
      }
    }
    var out := ZeroOrEmpty(vs[0].bits);
    if vs[0].words.Length > out.words.Length {
      return Err(OutOfRange);
    }
    FillMajority(vs, out);
    return Ok(out);
  }
}
