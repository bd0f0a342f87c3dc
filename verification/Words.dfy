/** Bytes, and unsigned integers stored little-endian. */
module Words {

  type Byte = b: int | 0 <= b < 0x100
  type Half = h: int | 0 <= h < 0x1_0000
  type Word = w: int | 0 <= w < 0x1_0000_0000

  /** Little-endian. */
  function WordBytes(w: Word): seq<Byte> {
    var q := w / 0x100;
    [w % 0x100, q % 0x100, q / 0x100 % 0x100, q / 0x100 / 0x100]
  }

  function WordOf(b: seq<Byte>): Word
    requires |b| == 4
  {
    var high: int := b[2] + 0x100 * b[3] as int;
    var middle: int := b[1] + 0x100 * high;
    b[0] + 0x100 * middle
  }

  lemma DigitAndRest(w: int, digit: int, rest: int)
    requires 0 <= digit < 0x100
    ensures w == digit + 0x100 * rest <==> w % 0x100 == digit && w / 0x100 == rest
  {
  }

  lemma WordRoundTrip(w: Word, b: seq<Byte>)
    ensures WordOf(WordBytes(w)) == w
    ensures |b| == 4 ==> WordBytes(WordOf(b)) == b
  {
    if |b| == 4 {
      var high: int := b[2] + 0x100 * b[3] as int;
      var middle: int := b[1] + 0x100 * high;
      DigitAndRest(high, b[2], b[3]);
      DigitAndRest(middle, b[1], high);
      DigitAndRest(WordOf(b), b[0], middle);
    }
  }

  function HalfBytes(h: Half): seq<Byte> { [h % 0x100, h / 0x100] }

  function HalfOf(b: seq<Byte>): Half
    requires |b| == 2
  {
    var high: int := 0x100 * b[1] as int;
    b[0] + high
  }

  lemma HalfRoundTrip(h: Half, b: seq<Byte>)
    ensures HalfOf(HalfBytes(h)) == h
    ensures |b| == 2 ==> HalfBytes(HalfOf(b)) == b
  {
    if |b| == 2 {
      DigitAndRest(HalfOf(b), b[0], b[1]);
    }
  }

  /** Copy `src` to position `at`; what was written before stays. */
  method Copy(out: array<Byte>, at: nat, src: seq<Byte>)
    requires at + |src| <= out.Length
    modifies out
    ensures out[..at + |src|] == old(out[..at]) + src
  {
    for i := 0 to |src|
      invariant out[..at + i] == old(out[..at]) + src[..i]
    {
      out[at + i] := src[i];
      assert src[..i + 1] == src[..i] + [src[i]];
    }
    assert src[..|src|] == src;
  }
}
