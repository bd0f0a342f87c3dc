/** The byte layout of a frame (include/p2pgpu/protocol/frame.hpp), read off the
    bytes themselves. */
module WireFormat {
  import opened Basics
  import opened Words
  import opened Frames

  /** Bytes as a number, the first the least significant. */
  function Value(b: seq<Byte>): nat {
    if b == [] then 0 else b[0] + 0x100 * Value(b[1..])
  }

  lemma ValueOfFour(b: seq<Byte>)
    requires |b| == 4
    ensures Value(b) == WordOf(b)
  {
    assert b[1..][1..] == b[2..] && b[2..][1..] == b[3..] && b[3..][1..] == [];
    assert Value(b[2..]) == b[2] + 0x100 * Value(b[3..]);
    assert Value(b[1..]) == b[1] + 0x100 * Value(b[2..]);
  }

  lemma ValueOfTwo(b: seq<Byte>)
    requires |b| == 2
    ensures Value(b) == HalfOf(b)
  {
    assert b[1..][1..] == [];
    assert Value(b[1..]) == b[1];
  }

  /** Words and halves are written little-endian. */
  lemma WrittenValue(w: Word, h: Half)
    ensures |WordBytes(w)| == 4 && Value(WordBytes(w)) == w
    ensures |HalfBytes(h)| == 2 && Value(HalfBytes(h)) == h
  {
    WordRoundTrip(w, []);
    HalfRoundTrip(h, []);
    ValueOfFour(WordBytes(w));
    ValueOfTwo(HalfBytes(h));
  }

  /** Each field of a header at its offset. */
  lemma HeaderLayout(h: Header)
    ensures var b := HeaderBytes(h);
            |b| == 16 && Value(b[0..4]) == h.magic && Value(b[4..6]) == h.version && Value(b[6..8]) == h.flags
            && Value(b[8..12]) == h.fbLen && Value(b[12..16]) == h.reserved
  {
    HeaderParts(h);
    WrittenValue(h.magic, h.version);
    WrittenValue(h.fbLen, h.flags);
    WrittenValue(h.reserved, 0);
    hide HeaderBytes, WordBytes, HalfBytes, Value;
  }

  /** What is sent: "P2GP", version 1, whether a payload follows, the size of the
      envelope, a zero word, the envelope and the payload. */
  lemma FrameLayout(envelope: seq<Byte>, payload: seq<Byte>)
    ensures var f := Encoded(envelope, payload);
            |f| == 16 + |envelope| + |payload|
            && Value(f[0..4]) == 0x5032_4750 && Value(f[4..6]) == 1 && Value(f[6..8]) == (if payload == [] then 0 else 1)
            && Value(f[8..12]) == |envelope| % 0x1_0000_0000 && Value(f[12..16]) == 0
            && f[16..16 + |envelope|] == envelope && f[16 + |envelope|..] == payload
  {
    var h := HeaderFor(envelope, payload);
    var f, b := Encoded(envelope, payload), HeaderBytes(h);
    HeaderLayout(h);
    assert f[0..4] == b[0..4] && f[4..6] == b[4..6] && f[6..8] == b[6..8] && f[8..12] == b[8..12] && f[12..16] == b[12..16];
    hide HeaderBytes, Value;
  }

  /** The first check a frame fails, in the order they are made; none, if it is
      taken. */
  ghost function FirstFault(f: seq<Byte>): Option<Fault> {
    if |f| < 16 then Some(TooShort)
    else if Value(f[0..4]) != 0x5032_4750 then Some(BadMagic)
    else if Value(f[4..6]) != 1 then Some(VersionMismatch)
    else if Value(f[8..12]) > 65536 then Some(EnvelopeTooLarge)
    else if |f| < 16 + Value(f[8..12]) then Some(Truncated)
    else if Value(f[6..8]) % 2 == 1 <==> |f| == 16 + Value(f[8..12]) then Some(Orphan)
    else if Value(f[12..16]) != 0 then Some(ReservedInUse)
    else if |f| - 16 - Value(f[8..12]) > 8388608 then Some(PayloadTooLarge)
    else None
  }

  /** Where a frame is taken it is cut at the declared length; where it is not,
      the first check it fails is the fault. */
  lemma SplitIs(f: seq<Byte>)
    ensures var r, n := SplitFrame(f, true), FirstFault(f);
            if n.Some? then r == Refused(n.value)
            else |f| >= 16 + Value(f[8..12]) && r.Regions?
                 && r.envelope == f[16..16 + Value(f[8..12])] && r.payload == f[16 + Value(f[8..12])..]
  {
    if |f| >= 16 {
      var b := f[..16];
      assert b[0..4] == f[0..4] && b[4..6] == f[4..6] && b[6..8] == f[6..8] && b[8..12] == f[8..12] && b[12..16] == f[12..16];
      ValueOfFour(f[0..4]);
      ValueOfTwo(f[4..6]);
      ValueOfTwo(f[6..8]);
      ValueOfFour(f[8..12]);
      ValueOfFour(f[12..16]);
      hide Value, WordOf, HalfOf;
    }
  }
}
