/** The codec as the program runs it: a growing buffer on the way out, a moving
    cursor on the way in. */
module CodecIO {
  import opened Order
  import opened Facts
  import opened Rules
  import C = Codec

  type Bytes = C.Bytes

  /** `bytes.Reader`. */
  class ByteReader {
    const data: Bytes
    var pos: nat

    ghost predicate Valid() reads this { pos <= |data| }

    ghost function Rest(): Bytes
      requires Valid()
      reads this
    {
      data[pos..]
    }

    constructor (data: Bytes)
      ensures Valid() && Rest() == data && this.data == data
    {
      this.data, pos := data, 0;
      new;
      assert data[0..] == data;
    }

    method ReadNumber(k: nat) returns (n: Option<nat>)
      requires Valid()
      modifies this
      ensures Valid()
      ensures n.None? ==> C.ReadNumber(old(Rest()), k).None?
      ensures n.Some? ==> C.ReadNumber(old(Rest()), k) == Some(C.Read(n.value, Rest()))
    {
      if |data| - pos < k {
        return None;
      }
      n := Some(C.FromLittleEndian(data[pos..pos + k]));
      assert data[pos..][..k] == data[pos..pos + k] && data[pos..][k..] == data[pos + k..];
      pos := pos + k;
    }

    method ReadByte() returns (b: Option<byte>)
      requires Valid()
      modifies this
      ensures Valid()
      ensures b.None? <==> old(Rest()) == []
      ensures b.Some? ==> old(Rest()) == [b.value] + Rest()
    {
      if pos == |data| {
        return None;
      }
      b := Some(data[pos]);
      pos := pos + 1;
    }

    /** `Read` into a zeroed slice of length `n`. */
    method ReadChunk(n: nat) returns (s: Option<Str>)
      requires Valid()
      modifies this
      ensures Valid()
      ensures s.None? ==> C.ReadChunk(old(Rest()), n).None?
      ensures s.Some? ==> C.ReadChunk(old(Rest()), n) == Some(C.Read(s.value, Rest()))
    {
      if pos == |data| {
        return None;
      }
      var count := if |data| - pos < n then |data| - pos else n;
      s := Some(data[pos..pos + count] + C.Zeros(n - count));
      assert count == n ==> s.value == data[pos..pos + count];
      assert pos + count == |data| ==> data[pos..pos + count] == data[pos..];
      assert data[pos..][..count] == data[pos..pos + count] && data[pos..][count..] == data[pos + count..];
      pos := pos + count;
    }

    method ReadNano() returns (v: Option<int64>)
      requires Valid()
      modifies this
      ensures Valid()
      ensures v.None? ==> C.ReadNano(old(Rest())).None?
      ensures v.Some? ==> C.ReadNano(old(Rest())) == Some(C.Read(v.value, Rest()))
    {
      C.NanoInRange(Rest());
      var n := ReadNumber(8);
      if n.None? {
        return None;
      }
      v := Some(C.Signed(n.value));
    }

    /** Nothing left to read. */
    method AtEnd() returns (end: bool)
      requires Valid()
      ensures end <==> Rest() == []
    {
      end := pos == |data|;
    }

    /** The `readBytes` closure of both decoders. */
    method ReadField() returns (s: Option<Str>)
      requires Valid()
      modifies this
      ensures Valid()
      ensures s.None? ==> C.ReadField(old(Rest())).None?
      ensures s.Some? ==> C.ReadField(old(Rest())) == Some(C.Read(s.value, Rest()))
    {
      var n := ReadNumber(2);
      if n.None? {
        return None;
      }
      s := ReadChunk(n.value);
    }

    /** `readPattern`; the first three fields of a belief are read the same way. */
    method ReadTriple() returns (t: Option<Triple>)
      requires Valid()
      modifies this
      ensures Valid()
      ensures t.None? ==> C.ReadTriple(old(Rest())).None?
      ensures t.Some? ==> C.ReadTriple(old(Rest())) == Some(C.Read(t.value, Rest()))
    {
      var from := ReadField();
      if from.None? {
        return None;
      }
      var pred := ReadField();
      if pred.None? {
        return None;
      }
      var to := ReadField();
      if to.None? {
        return None;
      }
      t := Some(Triple(from.value, pred.value, to.value));
    }
  }

  /** `encodeBelief` (codec.go:22-44). */
  method EncodeBelief(b: Belief) returns (p: Option<Bytes>)
    ensures p == C.EncodeBelief(b)
    ensures p.Some? ==> C.DecodeBelief(p.value) == Some(b)
  {
    if |b.atom.from| > 0xffff || |b.atom.pred| > 0xffff || |b.atom.to| > 0xffff || |b.source| > 0xffff {
      return None;
    }
    C.BeliefRoundTrip(b);
    var buf := WritePattern([], b.atom);
    buf := buf + [b.polarity];
    buf := buf + C.LittleEndian(|b.source|, 2);
    buf := buf + b.source;
    buf := buf + C.NanoBytes(b.unixNano);
    BeliefBytes(C.PatternBytes(b.atom), [b.polarity], C.LittleEndian(|b.source|, 2), b.source, C.NanoBytes(b.unixNano));
    return Some(buf);
  }

  lemma BeliefBytes(a: Bytes, b: Bytes, c: Bytes, d: Bytes, e: Bytes)
    ensures [] + a + b + c + d + e == a + (b + ((c + d) + e))
  {
  }

  /** `writePattern` after its length check (codec_rules.go:80-87). */
  method WritePattern(start: Bytes, t: Triple) returns (buf: Bytes)
    ensures buf == start + C.PatternBytes(t)
  {
    buf := start + C.LittleEndian(|t.from|, 2);
    buf := buf + t.from;
    buf := buf + C.LittleEndian(|t.pred|, 2);
    buf := buf + t.pred;
    buf := buf + C.LittleEndian(|t.to|, 2);
    buf := buf + t.to;
  }

  /** `decodeBelief` (codec.go:46-103). */
  method DecodeBelief(p: Bytes) returns (b: Option<Belief>)
    ensures b == C.DecodeBelief(p)
  {
    hide C.ReadTriple, C.ReadField, C.ReadNano, ByteReader.Rest;
    var r := new ByteReader(p);
    var atom := r.ReadTriple();
    if atom.None? {
      return None;
    }
    ghost var rest := r.Rest();
    var pol := r.ReadByte();
    if pol.None? {
      return None;
    }
    assert rest[0] == pol.value && rest[1..] == r.Rest();
    var src := r.ReadField();
    if src.None? {
      return None;
    }
    var nano := r.ReadNano();
    if nano.None? {
      return None;
    }
    var end := r.AtEnd();
    if !end {
      return None;
    }
    return Some(Belief(atom.value, pol.value, src.value, nano.value));
  }

  /** `encodeRule` (codec_rules.go:11-33). */
  method EncodeRule(r: Rule) returns (p: Option<Bytes>)
    ensures p == C.EncodeRule(r)
    ensures p.Some? && r.conclusion.to != [] ==> C.DecodeRule(p.value) == Some(r)
    ensures p.Some? && r.conclusion.to == [] ==> C.DecodeRule(p.value) == None
  {
    if |r.name| > 0xffff || |r.premises| > 0xffff {
      return None;
    }
    if C.EncodeRule(r).Some? { C.RuleRoundTrip(r); }
    var buf := C.LittleEndian(|r.name|, 2);
    buf := buf + r.name;
    buf := buf + C.LittleEndian(|r.premises|, 2);
    ghost var start := buf;
    var i := 0;
    while i < |r.premises|
      invariant i <= |r.premises|
      invariant forall k :: 0 <= k < i ==> C.PatternFits(r.premises[k])
      invariant start + C.PatternsBytes(r.premises) == buf + C.PatternsBytes(r.premises[i..])
    {
      if !C.PatternFits(r.premises[i]) {
        return None;
      }
      WriteNext(start, r.premises, i, buf);
      buf := WritePattern(buf, r.premises[i]);
      i := i + 1;
    }
    if !C.PatternFits(r.conclusion) {
      return None;
    }
    assert buf + [] == buf;
    buf := WritePattern(buf, r.conclusion);
    assert forall x :: x in r.premises ==> C.PatternFits(x);
    SameBytes(C.Field(r.name), C.LittleEndian(|r.premises|, 2), C.PatternsBytes(r.premises), C.PatternBytes(r.conclusion));
    return Some(buf);
  }

  lemma WriteNext(start: Bytes, ps: seq<Pattern>, i: nat, buf: Bytes)
    requires i < |ps|
    ensures buf + C.PatternsBytes(ps[i..]) == (buf + C.PatternBytes(ps[i])) + C.PatternsBytes(ps[i + 1..])
  {
    assert ps[i..][0] == ps[i] && ps[i..][1..] == ps[i + 1..];
    Assoc(buf, C.PatternBytes(ps[i]), C.PatternsBytes(ps[i + 1..]));
  }

  lemma SameBytes(a: Bytes, b: Bytes, c: Bytes, d: Bytes)
    ensures ((a + b) + c) + d == a + (b + (c + d))
  {
  }

  /** The loop of `decodeRule` (codec_rules.go:52-59). */
  method ReadPremises(r: ByteReader, count: nat) returns (prem: Option<seq<Pattern>>)
    requires r.Valid()
    modifies r
    ensures r.Valid()
    ensures prem.Some? <==> C.ReadPatterns(old(r.Rest()), count).Some?
    ensures prem.Some? ==> C.ReadPatterns(old(r.Rest()), count).value == C.Read(prem.value, r.Rest())
  {
    hide C.ReadTriple, C.ReadPatterns;
    ghost var start := r.Rest();
    var done: seq<Pattern> := [];
    PrependNothing(C.ReadPatterns(start, count));
    var i := 0;
    while i < count
      invariant i <= count && r.Valid()
      invariant C.ReadPatterns(start, count) == Prepend(done, C.ReadPatterns(r.Rest(), count - i))
    {
      PrependStep(done, r.Rest(), count - i);
      var ap := r.ReadTriple();
      if ap.None? {
        return None;
      }
      done := done + [ap.value];
      i := i + 1;
    }
    C.ReadNoPatterns(r.Rest());
    assert done + [] == done;
    return Some(done);
  }

  /** `decodeRule` (codec_rules.go:35-71). */
  method DecodeRule(p: Bytes) returns (rule: Option<Rule>)
    ensures rule == C.DecodeRule(p)
  {
    hide C.ReadTriple, C.ReadPatterns, C.ReadField, C.ReadNumber, C.RuleParts, ByteReader.Rest;
    var r := new ByteReader(p);
    var name := r.ReadField();
    if name.None? {
      return None;
    }
    ghost var afterName := r.Rest();
    var count := r.ReadNumber(2);
    if count.None? {
      return None;
    }
    ghost var afterCount := r.Rest();
    assert C.ReadNumber(afterName, 2) == Some(C.Read(count.value, afterCount));
    rule := DecodeParts(r, name.value, count.value);
  }

  /** The premises and the conclusion, which end the payload. */
  method DecodeParts(r: ByteReader, name: Str, count: nat) returns (rule: Option<Rule>)
    requires r.Valid()
    modifies r
    ensures rule == C.RuleParts(old(r.Rest()), name, count)
  {
    hide C.ReadTriple, C.ReadPatterns;
    var prem := ReadPremises(r, count);
    if prem.None? {
      return None;
    }
    var conclusion := r.ReadTriple();
    if conclusion.None? {
      return None;
    }
    var end := r.AtEnd();
    if !end {
      return None;
    }
    return Some(Rule(name, prem.value, conclusion.value));
  }

  ghost function Prepend(done: seq<Pattern>, more: Option<C.Read<seq<Pattern>>>): Option<C.Read<seq<Pattern>>>
  {
    if more.None? then None else Some(C.Read(done + more.value.value, more.value.rest))
  }

  lemma PrependNothing(r: Option<C.Read<seq<Pattern>>>)
    ensures Prepend([], r) == r
  {
    if r.Some? { assert [] + r.value.value == r.value.value; }
  }

  lemma PrependStep(done: seq<Pattern>, p: Bytes, count: nat)
    requires count > 0
    ensures Prepend(done, C.ReadPatterns(p, count)) ==
            if C.ReadTriple(p).None? then None
            else Prepend(done + [C.ReadTriple(p).value.value], C.ReadPatterns(C.ReadTriple(p).value.rest, count - 1))
  {
    C.ReadPatternsStep(p, count);
    if C.ReadTriple(p).Some? {
      var t := C.ReadTriple(p).value;
      var more := C.ReadPatterns(t.rest, count - 1);
      if more.Some? {
        assert done + ([t.value] + more.value.value) == (done + [t.value]) + more.value.value;
      }
    }
  }
}
