/** The flat layout of a serialized tree (include/p2pgpu/scene/bvh.hpp): words,
    bytes, and the three sections. Floats travel as opaque words. */
module BvhFormat {
  import opened Words

  function ToBytes(ws: seq<Word>): (bs: seq<Byte>)
    ensures |bs| == 4 * |ws| && |bs| % 4 == 0
  {
    if ws == [] then [] else ToBytes(ws[..|ws| - 1]) + WordBytes(ws[|ws| - 1])
  }

  function ToWords(bs: seq<Byte>): (ws: seq<Word>)
    requires |bs| % 4 == 0
    ensures 4 * |ws| == |bs|
  {
    if bs == [] then [] else ToWords(bs[..|bs| - 4]) + [WordOf(bs[|bs| - 4..])]
  }

  lemma ToWordsSnoc(front: seq<Byte>, back: seq<Byte>)
    requires |front| % 4 == 0 && |back| == 4
    ensures ToWords(front + back) == ToWords(front) + [WordOf(back)]
  {
    hide WordOf;
    var bs := front + back;
    assert bs[..|bs| - 4] == front && bs[|bs| - 4..] == back;
  }

  lemma {:induction false} WordsOfBytes(ws: seq<Word>)
    ensures ToWords(ToBytes(ws)) == ws
  {
    if ws != [] {
      hide WordOf, WordBytes, ToWords;
      var init, last := ws[..|ws| - 1], ws[|ws| - 1];
      WordsOfBytes(init);
      WordRoundTrip(last, []);
      ToWordsSnoc(ToBytes(init), WordBytes(last));
    }
  }

  lemma {:induction false} BytesOfWords(bs: seq<Byte>)
    requires |bs| % 4 == 0
    ensures ToBytes(ToWords(bs)) == bs
  {
    if bs != [] {
      var init, last := bs[..|bs| - 4], bs[|bs| - 4..];
      BytesOfWords(init);
      WordRoundTrip(0, last);
      var ws := ToWords(bs);
      assert ws[..|ws| - 1] == ToWords(init);
      assert bs == init + last;
    }
  }

  // ---- records ---------------------------------------------------------------------

  datatype V3 = V3(x: Word, y: Word, z: Word)

  /** Eight words. Bit 31 of `countAndLeaf` marks a leaf; the rest is its
      primitive count. `leftOrFirst` is the left child or the first primitive. */
  datatype Node = Node(mn: V3, leftOrFirst: Word, mx: V3, countAndLeaf: Word)

  /** Sixteen words. */
  datatype Prim = Prim(kind: Word, material: Word, pad0: Word, pad1: Word, a: V3, radius: Word, b: V3, pad2: Word, c: V3, pad3: Word)

  /** Eight words. */
  datatype Material = Material(albedo: V3, fuzz: Word, kind: Word, pad: V3)

  const NODE_WORDS := 8
  const PRIM_WORDS := 16
  const MATERIAL_WORDS := 8
  const HEADER_WORDS := 16

  const LEAF_FLAG: int := 0x8000_0000
  const MAX_NODES: int := 0x80_0000
  const MAX_PRIMS: int := 0x40_0000
  const MAX_MATERIALS: int := 0x1_0000
  const MAGIC: Word := 0x5642_3250
  const VERSION: Word := 1
  const SPHERE: Word := 0
  const TRIANGLE: Word := 1
  const EMISSIVE: Word := 2

  predicate IsLeaf(n: Node) { n.countAndLeaf >= LEAF_FLAG }

  function Count(n: Node): nat { n.countAndLeaf % LEAF_FLAG }

  const ZERO := V3(0, 0, 0)

  function NodeWords(n: Node): seq<Word> {
    [n.mn.x, n.mn.y, n.mn.z, n.leftOrFirst, n.mx.x, n.mx.y, n.mx.z, n.countAndLeaf]
  }

  function NodeOf(w: seq<Word>): Node {
    if |w| != NODE_WORDS then Node(ZERO, 0, ZERO, 0) else Node(V3(w[0], w[1], w[2]), w[3], V3(w[4], w[5], w[6]), w[7])
  }

  function PrimWords(p: Prim): seq<Word> {
    [p.kind, p.material, p.pad0, p.pad1, p.a.x, p.a.y, p.a.z, p.radius,
     p.b.x, p.b.y, p.b.z, p.pad2, p.c.x, p.c.y, p.c.z, p.pad3]
  }

  function PrimOf(w: seq<Word>): Prim {
    if |w| != PRIM_WORDS then Prim(0, 0, 0, 0, ZERO, 0, ZERO, 0, ZERO, 0)
    else Prim(w[0], w[1], w[2], w[3], V3(w[4], w[5], w[6]), w[7], V3(w[8], w[9], w[10]), w[11], V3(w[12], w[13], w[14]), w[15])
  }

  function MaterialWords(m: Material): seq<Word> {
    [m.albedo.x, m.albedo.y, m.albedo.z, m.fuzz, m.kind, m.pad.x, m.pad.y, m.pad.z]
  }

  function MaterialOf(w: seq<Word>): Material {
    if |w| != MATERIAL_WORDS then Material(ZERO, 0, 0, ZERO)
    else Material(V3(w[0], w[1], w[2]), w[3], w[4], V3(w[5], w[6], w[7]))
  }

  // ---- sections: fixed-width records one after the other ---------------------------------

  /** `words` writes exactly `width` words, and `of` reads back what was written. */
  ghost predicate Codec<T(!new)>(words: T -> seq<Word>, of: seq<Word> -> T, width: nat) {
    (forall x :: |words(x)| == width && of(words(x)) == x)
    && (forall w :: |w| == width ==> words(of(w)) == w)
  }

  lemma NodeCodec()
    ensures Codec(NodeWords, NodeOf, NODE_WORDS)
  {
    forall w: seq<Word> | |w| == NODE_WORDS ensures NodeWords(NodeOf(w)) == w {}
  }

  lemma PrimCodec()
    ensures Codec(PrimWords, PrimOf, PRIM_WORDS)
  {
    forall w: seq<Word> | |w| == PRIM_WORDS ensures PrimWords(PrimOf(w)) == w {}
  }

  lemma MaterialCodec()
    ensures Codec(MaterialWords, MaterialOf, MATERIAL_WORDS)
  {
    forall w: seq<Word> | |w| == MATERIAL_WORDS ensures MaterialWords(MaterialOf(w)) == w {}
  }

  function Pack<T>(xs: seq<T>, words: T -> seq<Word>): seq<Word> {
    if xs == [] then [] else Pack(xs[..|xs| - 1], words) + words(xs[|xs| - 1])
  }

  function Unpack<T>(ws: seq<Word>, n: nat, width: nat, of: seq<Word> -> T): (xs: seq<T>)
    requires |ws| == n * width
    ensures |xs| == n
  {
    if n == 0 then []
    else
      assert n * width == (n - 1) * width + width;
      Unpack(ws[..(n - 1) * width], n - 1, width, of) + [of(ws[(n - 1) * width..])]
  }

  lemma {:induction false} PackLength<T(!new)>(xs: seq<T>, words: T -> seq<Word>, of: seq<Word> -> T, width: nat)
    requires Codec(words, of, width)
    ensures |Pack(xs, words)| == |xs| * width
  {
    if xs != [] {
      PackLength(xs[..|xs| - 1], words, of, width);
      assert |xs| * width == (|xs| - 1) * width + width;
    }
  }

  lemma {:induction false} UnpackPack<T(!new)>(xs: seq<T>, words: T -> seq<Word>, of: seq<Word> -> T, width: nat)
    requires Codec(words, of, width)
    ensures |Pack(xs, words)| == |xs| * width && Unpack(Pack(xs, words), |xs|, width, of) == xs
  {
    PackLength(xs, words, of, width);
    if xs != [] {
      var init, last := xs[..|xs| - 1], xs[|xs| - 1];
      UnpackPack(init, words, of, width);
      var ws := Pack(xs, words);
      assert ws[..(|xs| - 1) * width] == Pack(init, words);
      assert ws[(|xs| - 1) * width..] == words(last);
    }
  }

  lemma {:induction false} PackUnpack<T(!new)>(ws: seq<Word>, n: nat, words: T -> seq<Word>, of: seq<Word> -> T, width: nat)
    requires Codec(words, of, width) && |ws| == n * width
    ensures Pack(Unpack(ws, n, width, of), words) == ws
  {
    if n > 0 {
      assert n * width == (n - 1) * width + width;
      var cut := (n - 1) * width;
      var init, last := ws[..cut], ws[cut..];
      PackUnpack(init, n - 1, words, of, width);
      UnpackSnoc(ws, n, of, width);
      PackSnoc(Unpack(init, n - 1, width, of), of(last), words);
      assert words(of(last)) == last;
      assert ws == init + last;
    }
  }

  lemma UnpackSnoc<T(!new)>(ws: seq<Word>, n: nat, of: seq<Word> -> T, width: nat)
    requires n > 0 && |ws| == n * width && (n - 1) * width + width == n * width
    ensures Unpack(ws, n, width, of) == Unpack(ws[..(n - 1) * width], n - 1, width, of) + [of(ws[(n - 1) * width..])]
  {
  }

  lemma PackSnoc<T>(xs: seq<T>, x: T, words: T -> seq<Word>)
    ensures Pack(xs + [x], words) == Pack(xs, words) + words(x)
  {
    assert (xs + [x])[..|xs|] == xs;
  }
}
