/** The wire frame (src/protocol/frame.cpp, src/protocol/encode.cpp): a 16-byte
    header, an envelope and an optional payload. */
module Frames {
  import opened Basics
  import opened Words

  const MAGIC: Word := 0x5032_4750
  const VERSION: Half := 1
  const HEADER_BYTES: nat := 16
  const MAX_ENVELOPE: nat := 0x1_0000
  const MAX_PAYLOAD: nat := 0x80_0000

  datatype Header = Header(magic: Word, version: Half, flags: Half, fbLen: Word, reserved: Word) {
    predicate PayloadFollows() { flags % 2 == 1 }
  }

  datatype Fault = Misaligned | TooShort | BadMagic | VersionMismatch | EnvelopeTooLarge | Truncated | Orphan | ReservedInUse | PayloadTooLarge

  datatype Split = Regions(header: Header, envelope: seq<Byte>, payload: seq<Byte>) | Refused(fault: Fault)

  // ---- the header ----------------------------------------------------------------

  function HeaderBytes(h: Header): (b: seq<Byte>)
    ensures |b| == HEADER_BYTES
  {
    WordBytes(h.magic) + HalfBytes(h.version) + HalfBytes(h.flags) + WordBytes(h.fbLen) + WordBytes(h.reserved)
  }

  function ParseHeader(b: seq<Byte>): Option<Header> {
    if |b| != HEADER_BYTES then None
    else Some(Header(WordOf(b[0..4]), HalfOf(b[4..6]), HalfOf(b[6..8]), WordOf(b[8..12]), WordOf(b[12..16])))
  }

  lemma HeaderParts(h: Header)
    ensures var b := HeaderBytes(h);
            b[0..4] == WordBytes(h.magic) && b[4..6] == HalfBytes(h.version) && b[6..8] == HalfBytes(h.flags)
            && b[8..12] == WordBytes(h.fbLen) && b[12..16] == WordBytes(h.reserved)
  {
  }

  /** Parsing undoes encoding, for every header. */
  lemma ParseEncoded(h: Header)
    ensures ParseHeader(HeaderBytes(h)) == Some(h)
  {
    HeaderParts(h);
    WordRoundTrip(h.magic, []);
    HalfRoundTrip(h.version, []);
    HalfRoundTrip(h.flags, []);
    WordRoundTrip(h.fbLen, []);
    WordRoundTrip(h.reserved, []);
  }

  /** Encoding undoes parsing, for every sixteen bytes. */
  lemma EncodeParsed(b: seq<Byte>)
    requires |b| == HEADER_BYTES
    ensures HeaderBytes(ParseHeader(b).value) == b
  {
    WordRoundTrip(0, b[0..4]);
    HalfRoundTrip(0, b[4..6]);
    HalfRoundTrip(0, b[6..8]);
    WordRoundTrip(0, b[8..12]);
    WordRoundTrip(0, b[12..16]);
    assert b == b[0..4] + b[4..6] + b[6..8] + b[8..12] + b[12..16];
  }

  // ---- frames ----------------------------------------------------------------------

  /** The length field is the envelope's size in 32 bits. */
  function HeaderFor(envelope: seq<Byte>, payload: seq<Byte>): Header {
    Header(MAGIC, VERSION, if payload == [] then 0 else 1, |envelope| % 0x1_0000_0000, 0)
  }

  function Encoded(envelope: seq<Byte>, payload: seq<Byte>): seq<Byte> {
    HeaderBytes(HeaderFor(envelope, payload)) + envelope + payload
  }

  /** `aligned` says whether the buffer met the eight-byte precondition. */
  function SplitFrame(frame: seq<Byte>, aligned: bool): Split {
    if frame != [] && !aligned then Refused(Misaligned)
    else if |frame| < HEADER_BYTES then Refused(TooShort)
    else
      var h := ParseHeader(frame[..HEADER_BYTES]).value;
      if h.magic != MAGIC then Refused(BadMagic)
      else if h.version != VERSION then Refused(VersionMismatch)
      else if h.fbLen > MAX_ENVELOPE then Refused(EnvelopeTooLarge)
      else if |frame| < HEADER_BYTES + h.fbLen then Refused(Truncated)
      else
        var envelope, payload := frame[HEADER_BYTES..HEADER_BYTES + h.fbLen], frame[HEADER_BYTES + h.fbLen..];
        if h.PayloadFollows() && payload == [] then Refused(Orphan)
        else if !h.PayloadFollows() && payload != [] then Refused(Orphan)
        else if h.reserved != 0 then Refused(ReservedInUse)
        else if |payload| > MAX_PAYLOAD then Refused(PayloadTooLarge)
        else Regions(h, envelope, payload)
  }

  lemma EncodedParts(envelope: seq<Byte>, payload: seq<Byte>)
    ensures var f := Encoded(envelope, payload);
            |f| == HEADER_BYTES + |envelope| + |payload|
            && ParseHeader(f[..HEADER_BYTES]) == Some(HeaderFor(envelope, payload))
            && f[HEADER_BYTES..HEADER_BYTES + |envelope|] == envelope && f[HEADER_BYTES + |envelope|..] == payload
  {
    var h := HeaderBytes(HeaderFor(envelope, payload));
    ParseEncoded(HeaderFor(envelope, payload));
    assert Encoded(envelope, payload)[..HEADER_BYTES] == h;
  }

  lemma SplitEncoded(envelope: seq<Byte>, payload: seq<Byte>)
    requires |envelope| <= MAX_ENVELOPE && |payload| <= MAX_PAYLOAD
    ensures SplitFrame(Encoded(envelope, payload), true) == Regions(HeaderFor(envelope, payload), envelope, payload)
  {
    EncodedParts(envelope, payload);
    assert HeaderFor(envelope, payload).fbLen == |envelope|;
  }

  lemma RegionsWithinCaps(frame: seq<Byte>)
    requires SplitFrame(frame, true).Regions?
    ensures |SplitFrame(frame, true).envelope| <= MAX_ENVELOPE && |SplitFrame(frame, true).payload| <= MAX_PAYLOAD
  {
  }

  /** An encoded frame splits back into exactly its two parts, if and only if
      both are within their caps. */
  lemma SplitEncodedIff(envelope: seq<Byte>, payload: seq<Byte>)
    ensures SplitFrame(Encoded(envelope, payload), true) == Regions(HeaderFor(envelope, payload), envelope, payload)
            <==> |envelope| <= MAX_ENVELOPE && |payload| <= MAX_PAYLOAD
  {
    if |envelope| <= MAX_ENVELOPE && |payload| <= MAX_PAYLOAD {
      SplitEncoded(envelope, payload);
    } else if SplitFrame(Encoded(envelope, payload), true).Regions? {
      RegionsWithinCaps(Encoded(envelope, payload));
    }
  }

  /** Every accepted frame that sets no unknown flag is what encoding its parts gives. */
  lemma AcceptedReencodes(frame: seq<Byte>)
    requires SplitFrame(frame, true).Regions? && SplitFrame(frame, true).header.flags <= 1
    ensures var r := SplitFrame(frame, true); Encoded(r.envelope, r.payload) == frame
  {
    var r := SplitFrame(frame, true);
    EncodeParsed(frame[..HEADER_BYTES]);
    assert r.header == HeaderFor(r.envelope, r.payload);
    assert frame == frame[..HEADER_BYTES] + r.envelope + r.payload;
  }

  /** So the accepted frames without unknown flags are exactly the encodings of
      parts within the caps. */
  lemma AcceptsExactlyEncodings(frame: seq<Byte>)
    ensures (SplitFrame(frame, true).Regions? && SplitFrame(frame, true).header.flags <= 1)
            <==> exists e, p :: |e| <= MAX_ENVELOPE && |p| <= MAX_PAYLOAD && frame == Encoded(e, p)
  {
    var r := SplitFrame(frame, true);
    if r.Regions? && r.header.flags <= 1 {
      AcceptedReencodes(frame);
      assert frame == Encoded(r.envelope, r.payload);
    }
    forall e, p | |e| <= MAX_ENVELOPE && |p| <= MAX_PAYLOAD && frame == Encoded(e, p) ensures r.Regions? && r.header.flags <= 1 {
      SplitEncodedIff(e, p);
    }
  }

  // ---- the encoder, into a buffer ----------------------------------------------------

  method EncodeHeader(h: Header, out: array<Byte>)
    requires out.Length >= HEADER_BYTES
    modifies out
    ensures out[..HEADER_BYTES] == HeaderBytes(h)
  {
    Copy(out, 0, WordBytes(h.magic));
    Copy(out, 4, HalfBytes(h.version));
    Copy(out, 6, HalfBytes(h.flags));
    Copy(out, 8, WordBytes(h.fbLen));
    Copy(out, 12, WordBytes(h.reserved));
    assert out[..0] == [];
  }

  method EncodeFrame(envelope: seq<Byte>, payload: seq<Byte>) returns (out: array<Byte>)
    ensures fresh(out) && out[..] == Encoded(envelope, payload)
  {
    out := new Byte[HEADER_BYTES + |envelope| + |payload|](_ => 0);
    EncodeHeader(HeaderFor(envelope, payload), out);
    Copy(out, HEADER_BYTES, envelope);
    Copy(out, HEADER_BYTES + |envelope|, payload);
    assert out[..out.Length] == out[..];
  }
}
