/** The binary forms of beliefs, resolutions and rules
    (pkg/engine/codec.go, pkg/engine/codec_rules.go). */
module Codec {
  import opened Order
  import opened Facts
  import opened Rules

  type Bytes = seq<byte>

  // ---------- little-endian integers

  ghost function Pow256(k: nat): nat { if k == 0 then 1 else 256 * Pow256(k - 1) }

  function LittleEndian(n: nat, k: nat): (b: Bytes)
    ensures |b| == k
  {
    if k == 0 then [] else [n % 256] + LittleEndian(n / 256, k - 1)
  }

  function FromLittleEndian(b: Bytes): nat
  {
    if b == [] then 0 else b[0] + 256 * FromLittleEndian(b[1..])
  }

  lemma {:induction false} LittleEndianDecodes(n: nat, k: nat)
    requires n < Pow256(k)
    ensures FromLittleEndian(LittleEndian(n, k)) == n
  {
    if k > 0 { LittleEndianDecodes(n / 256, k - 1); }
  }

  lemma LowByte(b: byte, n: nat)
    ensures (b + 256 * n) % 256 == b && (b + 256 * n) / 256 == n
  {
  }

  lemma {:induction false} LittleEndianEncodes(b: Bytes)
    ensures FromLittleEndian(b) < Pow256(|b|)
    ensures LittleEndian(FromLittleEndian(b), |b|) == b
  {
    if b != [] {
      LittleEndianEncodes(b[1..]);
      LowByte(b[0], FromLittleEndian(b[1..]));
      assert b == [b[0]] + b[1..];
    }
  }

  lemma Powers()
    ensures Pow256(2) == 0x1_0000
    ensures Pow256(4) == 0x1_0000_0000
    ensures Pow256(8) == 0x1_0000_0000_0000_0000
  {
    assert Pow256(3) == 0x100_0000;
    assert Pow256(5) == 0x100_0000_0000;
    assert Pow256(6) == 0x1_0000_0000_0000;
    assert Pow256(7) == 0x100_0000_0000_0000;
  }

  /** Two's complement. */
  function Unsigned(v: int64): nat { if v < 0 then v + 0x1_0000_0000_0000_0000 else v }

  function Signed(u: nat): int64
    requires u < 0x1_0000_0000_0000_0000
  {
    if u < 0x8000_0000_0000_0000 then u else u - 0x1_0000_0000_0000_0000
  }

  // ---------- writing

  function Field(s: Str): Bytes { LittleEndian(|s|, 2) + s }

  predicate Fits(s: Str) { |s| <= 0xffff }

  predicate PatternFits(p: Pattern) { Fits(p.from) && Fits(p.pred) && Fits(p.to) }

  function PatternBytes(p: Pattern): Bytes { Field(p.from) + (Field(p.pred) + Field(p.to)) }

  function NanoBytes(v: int64): Bytes { LittleEndian(Unsigned(v), 8) }

  function EncodeBelief(b: Belief): Option<Bytes>
  {
    if PatternFits(b.atom) && Fits(b.source) then
      Some(PatternBytes(b.atom) + ([b.polarity] + (Field(b.source) + NanoBytes(b.unixNano))))
    else
      None
  }

  function AsBelief(r: Resolution): Belief { Belief(r.atom, r.polarity, r.source, r.unixNano) }

  function EncodeResolution(r: Resolution): Option<Bytes> { EncodeBelief(AsBelief(r)) }

  function PatternsBytes(ps: seq<Pattern>): Bytes
  {
    if ps == [] then [] else PatternBytes(ps[0]) + PatternsBytes(ps[1..])
  }

  predicate RuleFits(r: Rule)
  {
    Fits(r.name) && |r.premises| <= 0xffff && (forall p :: p in r.premises ==> PatternFits(p)) && PatternFits(r.conclusion)
  }

  function RuleBytes(r: Rule): Bytes
  {
    Field(r.name) + (LittleEndian(|r.premises|, 2) + (PatternsBytes(r.premises) + PatternBytes(r.conclusion)))
  }

  function EncodeRule(r: Rule): Option<Bytes> { if RuleFits(r) then Some(RuleBytes(r)) else None }

  // ---------- reading: each reader returns what it read and the bytes left

  datatype Read<T> = Read(value: T, rest: Bytes)

  function Zeros(k: nat): Bytes { seq(k, _ => 0) }

  /** `binary.Read` needs every byte. */
  function ReadNumber(p: Bytes, k: nat): Option<Read<nat>>
  {
    if |p| < k then None else Some(Read(FromLittleEndian(p[..k]), p[k..]))
  }

  /** `bytes.Reader.Read` fails at the end of the buffer, even when nothing is
      asked for, and returns fewer bytes than asked for without an error: the
      slice read into keeps its zeros. */
  function ReadChunk(p: Bytes, n: nat): Option<Read<Str>>
  {
    if p == [] then None
    else if |p| < n then Some(Read(p + Zeros(n - |p|), []))
    else Some(Read(p[..n], p[n..]))
  }

  function ReadField(p: Bytes): Option<Read<Str>>
  {
    match ReadNumber(p, 2)
    case None => None
    case Some(n) => ReadChunk(n.rest, n.value)
  }

  function ReadTriple(p: Bytes): Option<Read<Triple>>
  {
    match ReadField(p)
    case None => None
    case Some(f) =>
      match ReadField(f.rest)
      case None => None
      case Some(q) =>
        match ReadField(q.rest)
        case None => None
        case Some(t) => Some(Read(Triple(f.value, q.value, t.value), t.rest))
  }

  function ReadNano(p: Bytes): Option<Read<int64>>
  {
    match ReadNumber(p, 8)
    case None => None
    case Some(n) =>
      NanoInRange(p);
      Some(Read(Signed(n.value), n.rest))
  }

  lemma NanoInRange(p: Bytes)
    ensures ReadNumber(p, 8).Some? ==> ReadNumber(p, 8).value.value < 0x1_0000_0000_0000_0000
  {
    if |p| >= 8 {
      LittleEndianEncodes(p[..8]);
      Powers();
    }
  }

  function DecodeBelief(p: Bytes): Option<Belief>
  {
    match ReadTriple(p)
    case None => None
    case Some(a) =>
      if a.rest == [] then None else
      match ReadField(a.rest[1..])
      case None => None
      case Some(src) =>
        match ReadNano(src.rest)
        case None => None
        case Some(nano) =>
          if nano.rest != [] then None else Some(Belief(a.value, a.rest[0], src.value, nano.value))
  }

  function DecodeResolution(p: Bytes): Option<Resolution>
  {
    match DecodeBelief(p)
    case None => None
    case Some(b) => Some(Resolution(b.atom, b.polarity, b.source, b.unixNano))
  }

  function ReadPatterns(p: Bytes, count: nat): Option<Read<seq<Pattern>>>
    decreases count
  {
    if count == 0 then Some(Read([], p)) else
      match ReadTriple(p)
      case None => None
      case Some(t) =>
        match ReadPatterns(t.rest, count - 1)
        case None => None
        case Some(ts) => Some(Read([t.value] + ts.value, ts.rest))
  }

  /** After its name and the number of its premises. */
  function RuleParts(p: Bytes, name: Str, count: nat): Option<Rule>
  {
    match ReadPatterns(p, count)
    case None => None
    case Some(ps) =>
      match ReadTriple(ps.rest)
      case None => None
      case Some(t) => if t.rest != [] then None else Some(Rule(name, ps.value, t.value))
  }

  function DecodeRule(p: Bytes): Option<Rule>
  {
    match ReadField(p)
    case None => None
    case Some(name) =>
      match ReadNumber(name.rest, 2)
      case None => None
      case Some(count) => RuleParts(count.rest, name.value, count.value)
  }

  // ---------- what is written can be read

  lemma ReadWrittenNumber(n: nat, k: nat, rest: Bytes)
    requires n < Pow256(k)
    ensures ReadNumber(LittleEndian(n, k) + rest, k) == Some(Read(n, rest))
  {
    LittleEndianDecodes(n, k);
    assert (LittleEndian(n, k) + rest)[..k] == LittleEndian(n, k);
    assert (LittleEndian(n, k) + rest)[k..] == rest;
  }

  lemma ReadWrittenField(s: Str, rest: Bytes)
    requires Fits(s)
    ensures ReadField(Field(s) + rest) == if s + rest == [] then None else Some(Read(s, rest))
  {
    Powers();
    assert Field(s) + rest == LittleEndian(|s|, 2) + (s + rest);
    ReadWrittenNumber(|s|, 2, s + rest);
    assert (s + rest)[..|s|] == s && (s + rest)[|s|..] == rest;
  }

  lemma ReadWrittenTriple(t: Triple, rest: Bytes)
    requires PatternFits(t)
    ensures ReadTriple(PatternBytes(t) + rest) == if t.to + rest == [] then None else Some(Read(t, rest))
  {
    var b, c := Field(t.pred) + (Field(t.to) + rest), Field(t.to) + rest;
    assert PatternBytes(t) + rest == Field(t.from) + b;
    ReadWrittenField(t.from, b);
    ReadWrittenField(t.pred, c);
    ReadWrittenField(t.to, rest);
    assert |Field(t.to)| >= 2 && |Field(t.pred)| >= 2;
    assert t.from + b != [] && t.pred + c != [];
  }

  lemma ReadWrittenNano(v: int64)
    ensures ReadNano(NanoBytes(v)) == Some(Read(v, []))
  {
    Powers();
    ReadWrittenNumber(Unsigned(v), 8, []);
    assert NanoBytes(v) + [] == NanoBytes(v);
  }

  /** Decoding undoes encoding. */
  lemma BeliefRoundTrip(b: Belief)
    requires EncodeBelief(b).Some?
    ensures DecodeBelief(EncodeBelief(b).value) == Some(b)
  {
    var nano := NanoBytes(b.unixNano);
    var tail := [b.polarity] + (Field(b.source) + nano);
    ReadWrittenTriple(b.atom, tail);
    assert tail[0] == b.polarity && tail[1..] == Field(b.source) + nano;
    ReadWrittenField(b.source, nano);
    assert |nano| == 8;
    assert b.source + nano != [];
    ReadWrittenNano(b.unixNano);
  }

  lemma ResolutionRoundTrip(r: Resolution)
    requires EncodeResolution(r).Some?
    ensures DecodeResolution(EncodeResolution(r).value) == Some(r)
  {
    BeliefRoundTrip(AsBelief(r));
  }

  lemma {:induction false} ReadWrittenPatterns(ps: seq<Pattern>, rest: Bytes)
    requires (forall p :: p in ps ==> PatternFits(p)) && rest != []
    ensures ReadPatterns(PatternsBytes(ps) + rest, |ps|) == Some(Read(ps, rest))
  {
    hide ReadTriple, PatternBytes, PatternFits, ReadPatterns;
    if ps == [] {
      assert PatternsBytes(ps) + rest == rest;
      ReadNoPatterns(rest);
    } else {
      var tail := PatternsBytes(ps[1..]) + rest;
      ReadWrittenPatterns(ps[1..], rest);
      ReadWrittenMore(ps[0], tail);
      PatternsBytesCons(ps, rest);
      ReadPatternsStep(PatternBytes(ps[0]) + tail, |ps|);
      assert ps == [ps[0]] + ps[1..];
    }
  }

  lemma ReadWrittenMore(t: Triple, rest: Bytes)
    requires PatternFits(t) && rest != []
    ensures ReadTriple(PatternBytes(t) + rest) == Some(Read(t, rest))
  {
    ReadWrittenTriple(t, rest);
  }

  lemma ReadNoPatterns(p: Bytes)
    ensures ReadPatterns(p, 0) == Some(Read([], p))
  {
  }

  lemma ReadPatternsStep(p: Bytes, count: nat)
    requires count > 0
    ensures ReadPatterns(p, count) ==
            match ReadTriple(p)
            case None => None
            case Some(t) =>
              match ReadPatterns(t.rest, count - 1)
              case None => None
              case Some(ts) => Some(Read([t.value] + ts.value, ts.rest))
  {
  }

  lemma PatternLength(p: Pattern)
    ensures |PatternBytes(p)| >= 6
  {
  }

  /** A rule that can be written reads back exactly when its conclusion's
      object is not empty; otherwise nothing reads back. */
  lemma RuleRoundTrip(r: Rule)
    requires EncodeRule(r).Some?
    ensures DecodeRule(EncodeRule(r).value) == if r.conclusion.to == [] then None else Some(r)
  {
    hide ReadTriple, ReadPatterns, ReadField, ReadNumber, PatternBytes, PatternsBytes, LittleEndian, PatternFits, Pow256;
    var last := PatternBytes(r.conclusion);
    var body := PatternsBytes(r.premises) + last;
    Powers();
    PatternLength(r.conclusion);
    ReadWrittenField(r.name, LittleEndian(|r.premises|, 2) + body);
    assert r.name + (LittleEndian(|r.premises|, 2) + body) != [];
    ReadWrittenNumber(|r.premises|, 2, body);
    ReadWrittenPatterns(r.premises, last);
    ReadWrittenTriple(r.conclusion, []);
    assert last + [] == last && r.conclusion.to + [] == r.conclusion.to;
  }

  // ---------- what can be read was written, up to a short last field

  /** Where `p` has fewer bytes than a field announces, the reader supplies
      `k` zeros and is then at the end. */
  ghost predicate Padded(written: Bytes, p: Bytes, rest: Bytes, k: nat)
  {
    written + rest == p + Zeros(k) && (k > 0 ==> rest == [])
  }

  lemma ChunkWasWritten(p: Bytes, n: nat) returns (k: nat)
    requires ReadChunk(p, n).Some?
    ensures var f := ReadChunk(p, n).value;
            |f.value| == n && f.value + f.rest == p + Zeros(k) && (k > 0 ==> f.rest == [] && k < n)
  {
    k := if |p| < n then n - |p| else 0;
    if k == 0 { assert p + Zeros(0) == p; }
  }

  lemma FieldWasWritten(p: Bytes) returns (k: nat)
    requires ReadField(p).Some?
    ensures var f := ReadField(p).value;
            Fits(f.value) && Padded(Field(f.value), p, f.rest, k) && (k > 0 ==> k < |f.value|)
  {
    hide LittleEndian, FromLittleEndian, ReadNumber, ReadChunk, Pow256;
    var n, f := ReadNumber(p, 2).value, ReadField(p).value;
    NumberWasWritten(p, 2);
    Powers();
    k := ChunkWasWritten(n.rest, n.value);
    var size := LittleEndian(n.value, 2);
    assert Field(f.value) + f.rest == size + (f.value + f.rest);
    assert p + Zeros(k) == size + (n.rest + Zeros(k));
  }

  lemma TripleWasWritten(p: Bytes) returns (k: nat)
    requires ReadTriple(p).Some?
    ensures var t := ReadTriple(p).value;
            PatternFits(t.value) && Padded(PatternBytes(t.value), p, t.rest, k) && (k > 0 ==> k < |t.value.to|)
  {
    var f := ReadField(p).value;
    var q := ReadField(f.rest).value;
    var t := ReadField(q.rest).value;
    var k1 := FieldWasWritten(p);
    var k2 := FieldWasWritten(f.rest);
    k := FieldWasWritten(q.rest);
    assert f.rest != [] && q.rest != [];
    assert p + Zeros(0) == p && f.rest + Zeros(0) == f.rest;
    TripleBytes(Field(f.value), Field(q.value), Field(t.value), f.rest, q.rest, t.rest, Zeros(k));
  }

  lemma TripleBytes(f: Bytes, q: Bytes, t: Bytes, afterF: Bytes, afterQ: Bytes, afterT: Bytes, zeros: Bytes)
    requires t + afterT == afterQ + zeros && q + afterQ == afterF
    ensures (f + (q + t)) + afterT == (f + afterF) + zeros
  {
    Assoc(f, q + t, afterT);
    Assoc(q, t, afterT);
    Assoc(q, afterQ, zeros);
    Assoc(f, afterF, zeros);
  }

  /** Every accepted belief payload is the encoding of what it decodes to. */
  lemma AcceptedBeliefIsEncoding(p: Bytes)
    requires DecodeBelief(p).Some?
    ensures EncodeBelief(DecodeBelief(p).value) == Some(p)
  {
    hide ReadTriple, ReadField, ReadNano, ReadNumber, Field, PatternBytes, PatternFits, LittleEndian, Unsigned;
    var b := DecodeBelief(p).value;
    var a := ReadTriple(p).value;
    var src := ReadField(a.rest[1..]).value;
    NanoWasWritten(src.rest);
    WholeTripleWasWritten(p);
    WholeFieldWasWritten(a.rest[1..]);
    assert src.rest + [] == src.rest;
    assert a.rest == [a.rest[0]] + a.rest[1..];
    assert EncodeBelief(b).value == PatternBytes(b.atom) + ([b.polarity] + (Field(b.source) + src.rest));
  }

  lemma NanoWasWritten(p: Bytes)
    requires ReadNano(p).Some?
    ensures var n := ReadNano(p).value; p != [] && LittleEndian(Unsigned(n.value), 8) + n.rest == p
  {
    NanoInRange(p);
    NumberWasWritten(p, 8);
  }

  lemma {:induction false} PatternsWereWritten(p: Bytes, ps: seq<Pattern>, rest: Bytes)
    requires ReadPatterns(p, |ps|) == Some(Read(ps, rest)) && rest != []
    ensures forall x :: x in ps ==> PatternFits(x)
    ensures PatternsBytes(ps) + rest == p
    decreases |ps|
  {
    hide ReadTriple, PatternBytes, PatternFits;
    if ps == [] {
      assert PatternsBytes(ps) + rest == rest;
    } else {
      var mid := FirstPatternWasWritten(p, ps, rest);
      PatternsWereWritten(mid, ps[1..], rest);
      PatternsBytesCons(ps, rest);
      assert ps == [ps[0]] + ps[1..];
    }
  }

  lemma FirstPatternWasWritten(p: Bytes, ps: seq<Pattern>, rest: Bytes) returns (mid: Bytes)
    requires ReadPatterns(p, |ps|) == Some(Read(ps, rest)) && rest != [] && ps != []
    ensures PatternFits(ps[0]) && p == PatternBytes(ps[0]) + mid
    ensures ReadPatterns(mid, |ps| - 1) == Some(Read(ps[1..], rest))
  {
    mid := ReadTriple(p).value.rest;
    NothingAfterTheEnd(|ps| - 1);
    WholeTripleWasWritten(p);
  }

  lemma {:induction false} ReadPatternsCount(p: Bytes, count: nat)
    ensures ReadPatterns(p, count).Some? ==> |ReadPatterns(p, count).value.value| == count
    decreases count
  {
    hide ReadTriple;
    if count > 0 && ReadTriple(p).Some? { ReadPatternsCount(ReadTriple(p).value.rest, count - 1); }
  }

  lemma PatternsBytesCons(ps: seq<Pattern>, rest: Bytes)
    requires ps != []
    ensures PatternsBytes(ps) + rest == PatternBytes(ps[0]) + (PatternsBytes(ps[1..]) + rest)
  {
    Assoc(PatternBytes(ps[0]), PatternsBytes(ps[1..]), rest);
  }

  lemma WholeTripleWasWritten(p: Bytes)
    requires ReadTriple(p).Some? && ReadTriple(p).value.rest != []
    ensures var t := ReadTriple(p).value; PatternFits(t.value) && PatternBytes(t.value) + t.rest == p
  {
    var k := TripleWasWritten(p);
    assert p + Zeros(0) == p;
  }

  lemma WholeFieldWasWritten(p: Bytes)
    requires ReadField(p).Some? && ReadField(p).value.rest != []
    ensures var f := ReadField(p).value; Fits(f.value) && Field(f.value) + f.rest == p
  {
    var k := FieldWasWritten(p);
    assert p + Zeros(0) == p;
  }

  lemma NumberWasWritten(p: Bytes, k: nat)
    requires ReadNumber(p, k).Some?
    ensures var n := ReadNumber(p, k).value; n.value < Pow256(k) && LittleEndian(n.value, k) + n.rest == p
  {
    hide LittleEndian, FromLittleEndian, Pow256;
    LittleEndianEncodes(p[..k]);
    assert p == p[..k] + p[k..];
  }

  lemma NothingAfterTheEnd(count: nat)
    ensures ReadPatterns([], count).Some? ==> ReadPatterns([], count).value.rest == []
  {
  }

  /** An accepted rule payload is the encoding of the decoded rule with some
      zeros missing at the end, fewer than the conclusion's object is long. */
  lemma AcceptedRuleIsPrefix(p: Bytes) returns (k: nat)
    requires DecodeRule(p).Some?
    ensures var r := DecodeRule(p).value;
            && EncodeRule(r).Some? && EncodeRule(r).value == p + Zeros(k)
            && (k > 0 ==> k < |r.conclusion.to|)
  {
    var r := DecodeRule(p).value;
    var name := ReadField(p).value;
    var count := ReadNumber(name.rest, 2).value;
    var ps := ReadPatterns(count.rest, count.value).value;
    WholeFieldWasWritten(p);
    NumberWasWritten(name.rest, 2);
    Powers();
    ReadPatternsCount(count.rest, count.value);
    PatternsWereWritten(count.rest, ps.value, ps.rest);
    k := TripleWasWritten(ps.rest);
    var last := PatternBytes(r.conclusion);
    assert last + [] == last;
    Assoc(PatternsBytes(ps.value), ps.rest, Zeros(k));
    Assoc(LittleEndian(count.value, 2), count.rest, Zeros(k));
    Assoc(Field(name.value), name.rest, Zeros(k));
  }

  // ---------- and a short last field is read

  /** A field of which `k` final zeros are missing, but not all of it. */
  lemma ShortFieldReads(s: Str, short: Bytes, k: nat)
    requires Fits(s) && k < |s| && s == short + Zeros(k)
    ensures ReadField(LittleEndian(|s|, 2) + short) == Some(Read(s, []))
  {
    Powers();
    ReadWrittenNumber(|s|, 2, short);
    assert k == 0 ==> Zeros(k) == [] && short + [] == short && short[..|s|] == short && short[|s|..] == [];
  }

  lemma ShortTripleReads(t: Triple, short: Bytes, k: nat)
    requires PatternFits(t) && k < |t.to| && t.to == short + Zeros(k)
    ensures ReadTriple(Field(t.from) + (Field(t.pred) + (LittleEndian(|t.to|, 2) + short))) == Some(Read(t, []))
  {
    hide Field, ReadField;
    var last := LittleEndian(|t.to|, 2) + short;
    assert last != [] && Field(t.pred) + last != [];
    assert t.from + (Field(t.pred) + last) != [] && t.pred + last != [];
    ReadWrittenField(t.from, Field(t.pred) + last);
    ReadWrittenField(t.pred, last);
    ShortFieldReads(t.to, short, k);
  }

  /** The encoding without its last `k` bytes, which are zeros of the last field. */
  lemma ShortRuleBytes(r: Rule, p: Bytes, k: nat) returns (short: Bytes)
    requires RuleBytes(r) == p + Zeros(k) && k < |r.conclusion.to|
    ensures r.conclusion.to == short + Zeros(k)
    ensures p == Field(r.name) + (LittleEndian(|r.premises|, 2) + (PatternsBytes(r.premises)
                 + (Field(r.conclusion.from) + (Field(r.conclusion.pred) + (LittleEndian(|r.conclusion.to|, 2) + short)))))
  {
    var to := r.conclusion.to;
    short := to[..|to| - k];
    var size := LittleEndian(|to|, 2);
    var front := Field(r.name) + (LittleEndian(|r.premises|, 2) + (PatternsBytes(r.premises)
                 + (Field(r.conclusion.from) + (Field(r.conclusion.pred) + size))));
    RuleFront(Field(r.name), LittleEndian(|r.premises|, 2), PatternsBytes(r.premises),
              Field(r.conclusion.from), Field(r.conclusion.pred), size, to);
    RuleFront(Field(r.name), LittleEndian(|r.premises|, 2), PatternsBytes(r.premises),
              Field(r.conclusion.from), Field(r.conclusion.pred), size, short);
    assert RuleBytes(r) == front + to;
    hide RuleBytes, Field, LittleEndian, PatternsBytes;
    assert |p| == |front| + |short|;
    assert p == (p + Zeros(k))[..|p|] == (front + to)[..|p|] == front + short;
    assert to[|to| - k..] == (front + to)[|p|..] == (p + Zeros(k))[|p|..] == Zeros(k);
    assert to == short + to[|to| - k..];
  }

  lemma RuleFront(a: Bytes, b: Bytes, c: Bytes, d: Bytes, e: Bytes, f: Bytes, g: Bytes)
    ensures a + (b + (c + (d + (e + (f + g))))) == (a + (b + (c + (d + (e + f))))) + g
  {
    Assoc(e, f, g);
    Assoc(d, e + f, g);
    Assoc(c, d + (e + f), g);
    Assoc(b, c + (d + (e + f)), g);
    Assoc(a, b + (c + (d + (e + f))), g);
  }

  lemma ShortRuleReads(r: Rule, p: Bytes, k: nat)
    requires RuleFits(r) && RuleBytes(r) == p + Zeros(k) && k < |r.conclusion.to|
    ensures DecodeRule(p) == Some(r)
  {
    hide RuleBytes, Field, PatternsBytes, PatternFits, ReadField, ReadTriple, ReadPatterns, ReadNumber, LittleEndian, Zeros, Pow256;
    var short := ShortRuleBytes(r, p, k);
    var last := Field(r.conclusion.from) + (Field(r.conclusion.pred) + (LittleEndian(|r.conclusion.to|, 2) + short));
    var body := PatternsBytes(r.premises) + last;
    Powers();
    assert last != [];
    assert r.name + (LittleEndian(|r.premises|, 2) + body) != [];
    ReadWrittenField(r.name, LittleEndian(|r.premises|, 2) + body);
    ReadWrittenNumber(|r.premises|, 2, body);
    ReadWrittenPatterns(r.premises, last);
    ShortTripleReads(r.conclusion, short, k);
  }

  /** `p` is the encoding of `r` less `k` final zeros, fewer than its last field is long. */
  ghost predicate ShortBy(p: Bytes, r: Rule, k: nat)
  {
    RuleFits(r) && k < |r.conclusion.to| && RuleBytes(r) == p + Zeros(k)
  }

  /** Exactly these payloads decode to `r`. */
  lemma RuleDecodesExactly(p: Bytes, r: Rule)
    ensures DecodeRule(p) == Some(r) <==> exists k: nat :: ShortBy(p, r, k)
  {
    hide DecodeRule, RuleBytes, RuleFits;
    if DecodeRule(p) == Some(r) {
      var k := AcceptedRuleIsPrefix(p);
      if k == 0 {
        assert p + Zeros(0) == p;
        RuleRoundTrip(r);
      }
      assert ShortBy(p, r, k);
    }
    if k: nat :| ShortBy(p, r, k) { ShortRuleReads(r, p, k); }
  }

  /** Encoding what was decoded gives the payload back exactly if none was missing. */
  lemma RuleReencodes(p: Bytes, r: Rule, k: nat)
    requires ShortBy(p, r, k)
    ensures DecodeRule(p) == Some(r) && (EncodeRule(r) == Some(p) <==> k == 0)
  {
    ShortRuleReads(r, p, k);
    assert p + Zeros(0) == p;
    assert |RuleBytes(r)| == |p| + k;
  }

  const SHORT_RULE: Rule := Rule([114], [], Triple([97], [98], [99, 0]))
  const SHORT_PAYLOAD: Bytes := [1, 0, 114, 0, 0, 1, 0, 97, 1, 0, 98, 2, 0, 99]

  lemma SmallSize(n: byte)
    ensures LittleEndian(n, 2) == [n, 0]
  {
  }

  /** For instance a payload that ends one byte early. */
  lemma ShortPayloadDecodes()
    ensures DecodeRule(SHORT_PAYLOAD) == Some(SHORT_RULE) && EncodeRule(SHORT_RULE) == Some(SHORT_PAYLOAD + [0])
  {
    SmallSize(0);
    SmallSize(1);
    SmallSize(2);
    hide LittleEndian, DecodeRule;
    assert PatternsBytes(SHORT_RULE.premises) == [];
    assert RuleBytes(SHORT_RULE) == SHORT_PAYLOAD + [0];
    assert Zeros(1) == [0];
    ShortRuleReads(SHORT_RULE, SHORT_PAYLOAD, 1);
  }
}
