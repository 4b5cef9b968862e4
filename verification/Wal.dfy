/** The write-ahead log as a sequence of bytes (pkg/store/wal.go).  The checksum
    is any total function from bytes to 32 bits. */
module Wal {
  import opened Order
  import opened Codec

  type EventType = byte

  const UNKNOWN: EventType := 0
  const FACT_ADDED: EventType := 1
  const RESOLUTION_SET: EventType := 2
  const RULE_ADDED: EventType := 3

  datatype Record = Record(kind: EventType, payload: Bytes)

  type uint32 = x: int | 0 <= x < 0x1_0000_0000

  type Checksum = Bytes -> uint32

  const MAGIC: Bytes := [78, 65, 78, 49]   // "NAN1"
  const VERSION: byte := 1
  const HEADER_SIZE := 16

  /** Why a replay stopped. */
  datatype Stop = EndOfLog | InvalidMagic | UnsupportedVersion | ChecksumMismatch

  predicate Appendable(rec: Record) { rec.kind != UNKNOWN && |rec.payload| <= 0xffff_ffff }

  function Header(crc: Checksum, rec: Record): (h: Bytes)
    ensures |h| == HEADER_SIZE
  {
    MAGIC + [VERSION, rec.kind, 0, 0] + LittleEndian(|rec.payload|, 4) + LittleEndian(crc(rec.payload), 4)
  }

  function Frame(crc: Checksum, rec: Record): Bytes { Header(crc, rec) + rec.payload }

  function Frames(crc: Checksum, recs: seq<Record>): Bytes
  {
    if recs == [] then [] else Frame(crc, recs[0]) + Frames(crc, recs[1..])
  }

  datatype Next = More(rec: Record, rest: Bytes) | Done(why: Stop)

  /** One turn of the replay loop (wal.go:132-161). */
  function ReadFrame(crc: Checksum, file: Bytes): (next: Next)
    ensures next.More? ==> |next.rest| < |file|
  {
    if |file| < HEADER_SIZE then Done(EndOfLog)
    else if file[..4] != MAGIC then Done(InvalidMagic)
    else if file[4] != VERSION then Done(UnsupportedVersion)
    else
      var size := FromLittleEndian(file[8..12]);
      if |file| - HEADER_SIZE < size then Done(EndOfLog)
      else
        var payload := file[HEADER_SIZE..HEADER_SIZE + size];
        if crc(payload) != FromLittleEndian(file[12..16]) then Done(ChecksumMismatch)
        else More(Record(file[5], payload), file[HEADER_SIZE + size..])
  }

  /** What `Replay` delivers from a file, in order, and why it ends. */
  function Delivered(crc: Checksum, file: Bytes): (seq<Record>, Stop)
    decreases |file|
  {
    match ReadFrame(crc, file)
    case Done(stop) => ([], stop)
    case More(rec, rest) =>
      var (more, stop) := Delivered(crc, rest);
      ([rec] + more, stop)
  }

  /** The header of a frame, or of the front of one, reads back. */
  lemma HeaderReads(crc: Checksum, rec: Record, file: Bytes)
    requires Appendable(rec) && |file| >= HEADER_SIZE && file[..HEADER_SIZE] == Header(crc, rec)
    ensures file[..4] == MAGIC && file[4] == VERSION && file[5] == rec.kind
    ensures FromLittleEndian(file[8..12]) == |rec.payload|
    ensures FromLittleEndian(file[12..16]) == crc(rec.payload)
  {
    Powers();
    LittleEndianDecodes(|rec.payload|, 4);
    LittleEndianDecodes(crc(rec.payload), 4);
    var h := file[..HEADER_SIZE];
    HeaderParts(MAGIC, [VERSION, rec.kind, 0, 0], LittleEndian(|rec.payload|, 4), LittleEndian(crc(rec.payload), 4));
    assert file[..4] == h[..4] && file[4..8] == h[4..8] && file[8..12] == h[8..12] && file[12..16] == h[12..16];
    assert file[4] == file[4..8][0] && file[5] == file[4..8][1];
  }

  lemma HeaderParts(a: Bytes, b: Bytes, c: Bytes, d: Bytes)
    requires |a| == |b| == |c| == |d| == 4
    ensures var h := a + b + c + d; h[..4] == a && h[4..8] == b && h[8..12] == c && h[12..16] == d
  {
  }

  /** A whole frame is read and taken off; the front of one ends the log. */
  lemma FrameReads(crc: Checksum, rec: Record, rest: Bytes, n: nat)
    requires Appendable(rec) && n <= |Frame(crc, rec) + rest|
    ensures ReadFrame(crc, (Frame(crc, rec) + rest)[..n]) ==
            if n < |Frame(crc, rec)| then Done(EndOfLog) else More(rec, rest[..n - |Frame(crc, rec)|])
  {
    var file := (Frame(crc, rec) + rest)[..n];
    if n >= HEADER_SIZE {
      assert file[..HEADER_SIZE] == Header(crc, rec);
      HeaderReads(crc, rec, file);
      if n >= |Frame(crc, rec)| {
        assert file[HEADER_SIZE..|Frame(crc, rec)|] == rec.payload;
        assert file[|Frame(crc, rec)|..] == rest[..n - |Frame(crc, rec)|];
      }
    }
  }

  /** However the file of these records was cut, replay ends without an error
      and delivers exactly the records that are whole. */
  lemma {:induction false} TornTail(crc: Checksum, recs: seq<Record>, n: nat) returns (m: nat)
    requires (forall rec :: rec in recs ==> Appendable(rec)) && n <= |Frames(crc, recs)|
    ensures m <= |recs| && |Frames(crc, recs[..m])| <= n
    ensures m < |recs| ==> n < |Frames(crc, recs[..m + 1])|
    ensures Delivered(crc, Frames(crc, recs)[..n]) == (recs[..m], EndOfLog)
    decreases |recs|
  {
    if recs == [] {
      m := 0;
    } else {
      var first := Frame(crc, recs[0]);
      FrameReads(crc, recs[0], Frames(crc, recs[1..]), n);
      if n < |first| {
        m := 0;
        FramesFirst(crc, recs, 0);
      } else {
        var k := TornTail(crc, recs[1..], n - |first|);
        m := k + 1;
        FramesFirst(crc, recs, k);
        if m < |recs| { FramesFirst(crc, recs, k + 1); }
        assert recs[..m] == [recs[0]] + recs[1..][..k];
      }
    }
  }

  lemma FramesFirst(crc: Checksum, recs: seq<Record>, k: nat)
    requires k < |recs|
    ensures Frames(crc, recs[..k + 1]) == Frame(crc, recs[0]) + Frames(crc, recs[1..][..k])
  {
    assert recs[..k + 1][0] == recs[0] && recs[..k + 1][1..] == recs[1..][..k];
  }

  /** A whole file delivers every record. */
  lemma WholeLog(crc: Checksum, recs: seq<Record>)
    requires forall rec :: rec in recs ==> Appendable(rec)
    ensures Delivered(crc, Frames(crc, recs)) == (recs, EndOfLog)
  {
    var m := TornTail(crc, recs, |Frames(crc, recs)|);
    assert Frames(crc, recs)[..|Frames(crc, recs)|] == Frames(crc, recs);
    if m < |recs| {
      FramesSplit(crc, recs, m + 1);
      assert false;
    }
    assert recs[..m] == recs;
  }

  lemma {:induction false} FramesSplit(crc: Checksum, recs: seq<Record>, k: nat)
    requires k <= |recs|
    ensures Frames(crc, recs) == Frames(crc, recs[..k]) + Frames(crc, recs[k..])
    decreases k
  {
    if k == 0 {
      assert recs[0..] == recs && recs[..0] == [];
    } else {
      FramesSplit(crc, recs[1..], k - 1);
      FramesFirst(crc, recs, k - 1);
      assert recs[1..][k - 1..] == recs[k..];
      Assoc(Frame(crc, recs[0]), Frames(crc, recs[1..][..k - 1]), Frames(crc, recs[k..]));
    }
  }

  // ---------- any file, byte by byte

  /** The number in four bytes, the lowest first. */
  function Number(b0: byte, b1: byte, b2: byte, b3: byte): nat { b0 + 0x100 * b1 + 0x1_0000 * b2 + 0x100_0000 * b3 }

  /** "NAN1" and version 1. */
  predicate GoodMagic(file: Bytes)
    requires |file| >= 16
  {
    file[0] == 78 && file[1] == 65 && file[2] == 78 && file[3] == 49
  }

  function SizeIn(file: Bytes): nat
    requires |file| >= 16
  {
    Number(file[8], file[9], file[10], file[11])
  }

  function ChecksumIn(file: Bytes): nat
    requires |file| >= 16
  {
    Number(file[12], file[13], file[14], file[15])
  }

  /** The file begins with a frame of this record. */
  ghost predicate BeginsWith(crc: Checksum, file: Bytes, rec: Record)
  {
    && |file| >= 16 && GoodMagic(file) && file[4] == 1
    && file[5] == rec.kind
    && SizeIn(file) == |rec.payload| && |file| >= 16 + |rec.payload|
    && file[16..16 + |rec.payload|] == rec.payload
    && ChecksumIn(file) == crc(rec.payload)
  }

  /** Nothing more is read from the file, for this reason. */
  ghost predicate StopsFor(crc: Checksum, file: Bytes, why: Stop)
  {
    match why
    case EndOfLog => |file| < 16 || (GoodMagic(file) && file[4] == 1 && |file| < 16 + SizeIn(file))
    case InvalidMagic => |file| >= 16 && !GoodMagic(file)
    case UnsupportedVersion => |file| >= 16 && GoodMagic(file) && file[4] != 1
    case ChecksumMismatch =>
      && |file| >= 16 && GoodMagic(file) && file[4] == 1 && |file| >= 16 + SizeIn(file)
      && crc(file[16..16 + SizeIn(file)]) != ChecksumIn(file)
  }

  /** The file is these frames and then something that stops the replay. */
  ghost predicate Holds(crc: Checksum, file: Bytes, recs: seq<Record>, why: Stop)
    decreases |recs|
  {
    if recs == [] then StopsFor(crc, file, why)
    else BeginsWith(crc, file, recs[0]) && Holds(crc, file[16 + |recs[0].payload|..], recs[1..], why)
  }

  lemma FourBytes(b: Bytes)
    requires |b| == 4
    ensures FromLittleEndian(b) == Number(b[0], b[1], b[2], b[3])
  {
    assert b == [b[0]] + ([b[1]] + ([b[2]] + [b[3]]));
    var n: nat := b[2] + 0x100 * (b[3] as nat);
    assert FromLittleEndian([b[3]]) == b[3];
    assert FromLittleEndian([b[2]] + [b[3]]) == n;
    assert FromLittleEndian([b[1]] + ([b[2]] + [b[3]])) == b[1] + 0x100 * n;
  }

  lemma HeaderFields(file: Bytes)
    requires |file| >= 16
    ensures file[..4] == MAGIC <==> GoodMagic(file)
    ensures FromLittleEndian(file[8..12]) == SizeIn(file) && FromLittleEndian(file[12..16]) == ChecksumIn(file)
  {
    FourBytes(file[8..12]);
    FourBytes(file[12..16]);
    assert file[..4] == [file[0], file[1], file[2], file[3]];
  }

  lemma ReadsByByte(crc: Checksum, file: Bytes)
    ensures match ReadFrame(crc, file)
            case More(rec, rest) => BeginsWith(crc, file, rec) && rest == file[16 + |rec.payload|..]
            case Done(why) => StopsFor(crc, file, why)
  {
    if |file| >= 16 { HeaderFields(file); }
  }

  lemma OneReading(crc: Checksum, file: Bytes, rec: Record, other: Record, why: Stop, why2: Stop)
    ensures BeginsWith(crc, file, rec) && BeginsWith(crc, file, other) ==> rec == other
    ensures !(BeginsWith(crc, file, rec) && StopsFor(crc, file, why))
    ensures StopsFor(crc, file, why) && StopsFor(crc, file, why2) ==> why == why2
  {
  }

  /** For any bytes whatever: replay delivers the records of the frames that the
      file begins with, and stops where and why the bytes after them say. */
  lemma {:induction false} DeliversWhatItHolds(crc: Checksum, file: Bytes, recs: seq<Record>, why: Stop)
    ensures Delivered(crc, file) == (recs, why) <==> Holds(crc, file, recs, why)
    decreases |file|
  {
    hide BeginsWith, StopsFor;
    ReadsByByte(crc, file);
    match ReadFrame(crc, file) {
      case Done(stop) =>
        OneReading(crc, file, if recs == [] then Record(0, []) else recs[0], Record(0, []), stop, why);
      case More(rec, rest) =>
        OneReading(crc, file, rec, if recs == [] then rec else recs[0], why, why);
        var (more, stop) := Delivered(crc, rest);
        if recs != [] {
          DeliversWhatItHolds(crc, rest, recs[1..], why);
          assert recs == [recs[0]] + recs[1..];
          assert ([rec] + more)[1..] == more;
        }
    }
  }

  lemma {:induction false} DeliversThen(crc: Checksum, recs: seq<Record>, rest: Bytes)
    requires forall rec :: rec in recs ==> Appendable(rec)
    ensures Delivered(crc, Frames(crc, recs) + rest) == (recs + Delivered(crc, rest).0, Delivered(crc, rest).1)
    decreases |recs|
  {
    hide ReadFrame, Frame;
    if recs == [] {
      assert Frames(crc, recs) + rest == rest && recs + Delivered(crc, rest).0 == Delivered(crc, rest).0;
    } else {
      var first, more := Frame(crc, recs[0]), Frames(crc, recs[1..]);
      Assoc(first, more, rest);
      var file := first + (more + rest);
      FrameReads(crc, recs[0], more + rest, |file|);
      assert file[..|file|] == file && (more + rest)[..|more + rest|] == more + rest;
      DeliversThen(crc, recs[1..], rest);
      assert recs + Delivered(crc, rest).0 == [recs[0]] + (recs[1..] + Delivered(crc, rest).0);
    }
  }

  /** A payload of the right length that the checksum tells from the one that
      was written is not delivered, nor is anything after it. */
  lemma DamagedPayload(crc: Checksum, recs: seq<Record>, rec: Record, q: Bytes, rest: Bytes)
    requires (forall r :: r in recs ==> Appendable(r)) && Appendable(rec)
    requires |q| == |rec.payload| && crc(q) != crc(rec.payload)
    ensures Delivered(crc, Frames(crc, recs) + (Header(crc, rec) + q + rest)) == (recs, ChecksumMismatch)
  {
    hide Header;
    var file := Header(crc, rec) + q + rest;
    assert file[..HEADER_SIZE] == Header(crc, rec) && file[HEADER_SIZE..HEADER_SIZE + |q|] == q;
    HeaderReads(crc, rec, file);
    DeliversThen(crc, recs, file);
    assert recs + [] == recs;
  }

  /** A header with another magic or another version is not read past. */
  lemma DamagedHeader(crc: Checksum, recs: seq<Record>, rec: Record, i: nat, x: byte, rest: Bytes)
    requires (forall r :: r in recs ==> Appendable(r)) && i <= 4 && x != Header(crc, rec)[i]
    ensures Delivered(crc, Frames(crc, recs) + (Header(crc, rec)[i := x] + rest)) ==
            (recs, if i < 4 then InvalidMagic else UnsupportedVersion)
  {
    var h := Header(crc, rec);
    var file := h[i := x] + rest;
    HeaderIs(crc, rec);
    HeaderFields(file);
    assert forall k :: 0 <= k < 5 ==> file[k] == if k == i then x else h[k];
    DeliversThen(crc, recs, file);
    assert recs + [] == recs;
  }

  /** The sixteen bytes that `Append` writes before a payload. */
  lemma HeaderIs(crc: Checksum, rec: Record)
    ensures var h := Header(crc, rec);
            && h[..8] == [78, 65, 78, 49, 1, rec.kind, 0, 0]
            && (Appendable(rec) ==> SizeIn(h) == |rec.payload| && ChecksumIn(h) == crc(rec.payload))
  {
    var h := Header(crc, rec);
    HeaderParts(MAGIC, [VERSION, rec.kind, 0, 0], LittleEndian(|rec.payload|, 4), LittleEndian(crc(rec.payload), 4));
    assert h[..8] == h[..4] + h[4..8];
    if Appendable(rec) {
      assert h[..HEADER_SIZE] == h;
      HeaderReads(crc, rec, h);
      HeaderFields(h);
    }
  }

  lemma FramesAppend(crc: Checksum, recs: seq<Record>, rec: Record)
    ensures Frames(crc, recs + [rec]) == Frames(crc, recs) + Frame(crc, rec)
  {
    FramesSplit(crc, recs + [rec], |recs|);
    assert (recs + [rec])[..|recs|] == recs && (recs + [rec])[|recs|..] == [rec];
    assert Frames(crc, [rec]) == Frame(crc, rec) + [];
  }

  /** The log file.  `records` is what was appended to it since it was empty. */
  class WAL {
    const crc: Checksum
    var file: Bytes
    var open: bool
    ghost var records: seq<Record>

    ghost predicate Valid()
      reads this
    {
      file == Frames(crc, records) && forall rec :: rec in records ==> Appendable(rec)
    }

    /** `CreateWAL` truncates. */
    constructor Create(crc: Checksum)
      ensures Valid() && records == [] && open && this.crc == crc
    {
      this.crc, file, open, records := crc, [], true, [];
    }

    method Close()
      requires Valid()
      modifies this`open
      ensures !open
    {
      open := false;
    }

    /** `Append` (wal.go:86-119). */
    method Append(rec: Record) returns (ok: bool)
      requires Valid()
      modifies this
      ensures Valid() && open == old(open)
      ensures ok <==> open && rec.kind != 0 && |rec.payload| <= 0xffff_ffff
      ensures records == if ok then old(records) + [rec] else old(records)
      ensures file == if ok then old(file) + Header(crc, rec) + rec.payload else old(file)
    {
      if rec.kind == UNKNOWN || !open || |rec.payload| > 0xffff_ffff {
        return false;
      }
      var header := MAGIC + [VERSION, rec.kind, 0, 0];
      header := header + LittleEndian(|rec.payload|, 4);
      header := header + LittleEndian(crc(rec.payload), 4);
      FramesAppend(crc, records, rec);
      Assoc(file, header, rec.payload);
      file := file + header;
      file := file + rec.payload;
      records := records + [rec];
      ok := true;
    }

    /** `Replay` (wal.go:123-168): the records handed to the callback, in order. */
    method Replay() returns (recs: seq<Record>, stop: Stop)
      ensures (recs, stop) == Delivered(crc, file) && Holds(crc, file, recs, stop)
      ensures Valid() ==> recs == records && stop == EndOfLog
    {
      if forall rec :: rec in records ==> Appendable(rec) { WholeLog(crc, records); }
      DeliversWhatItHolds(crc, file, Delivered(crc, file).0, Delivered(crc, file).1);
      recs := [];
      var r := file;
      assert [] + Delivered(crc, file).0 == Delivered(crc, file).0;
      while true
        invariant Delivered(crc, file).0 == recs + Delivered(crc, r).0
        invariant Delivered(crc, file).1 == Delivered(crc, r).1
        decreases |r|
      {
        match ReadFrame(crc, r) {
          case Done(why) =>
            assert recs + [] == recs;
            return recs, why;
          case More(rec, rest) =>
            assert recs + ([rec] + Delivered(crc, rest).0) == (recs + [rec]) + Delivered(crc, rest).0;
            recs, r := recs + [rec], rest;
        }
      }
    }
  }
}
