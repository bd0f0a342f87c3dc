/** Where each field of a stored hierarchy lies (include/p2pgpu/scene/bvh.hpp),
    read off the bytes themselves. */
module BvhLayout {
  import opened Words
  import opened BvhFormat
  import opened BvhTrees
  import opened BvhLoader

  /** The little-endian word at `at`. */
  ghost predicate WordAt(bytes: seq<Byte>, at: nat, w: nat) {
    at + 4 <= |bytes|
    && w == bytes[at] + 0x100 * (bytes[at + 1] as int + 0x100 * (bytes[at + 2] as int + 0x100 * (bytes[at + 3] as int)))
  }

  /** One word after the other from `at`. */
  ghost predicate WordsAt(bytes: seq<Byte>, at: nat, ws: seq<Word>) {
    forall j: nat | j < |ws| :: WordAt(bytes, at + 4 * j, ws[j])
  }

  lemma WrittenAt(front: seq<Byte>, w: Word)
    ensures WordAt(front + WordBytes(w), |front|, w)
  {
    var b, all := WordBytes(w), front + WordBytes(w);
    assert all[|front|] == b[0] && all[|front| + 1] == b[1] && all[|front| + 2] == b[2] && all[|front| + 3] == b[3];
  }

  lemma {:induction false} WordsInOrder(ws: seq<Word>)
    ensures WordsAt(ToBytes(ws), 0, ws)
  {
    if ws != [] {
      var init, last := ws[..|ws| - 1], ws[|ws| - 1];
      var front := ToBytes(init);
      WordsInOrder(init);
      WrittenAt(front, last);
      forall j: nat | j < |ws| ensures WordAt(ToBytes(ws), 0 + 4 * j, ws[j]) {
        if j < |init| {
          assert WordAt(front, 0 + 4 * j, init[j]);
        }
      }
    }
  }

  /** `part` lies at `k` in `ws`. */
  ghost predicate PartIn(ws: seq<Word>, k: nat, part: seq<Word>) {
    k + |part| <= |ws| && ws[k..k + |part|] == part
  }

  lemma PartOfSum(a: seq<Word>, b: seq<Word>, k: nat, part: seq<Word>)
    ensures PartIn(a, k, part) ==> PartIn(a + b, k, part)
    ensures PartIn(a + b, |a|, b)
  {
  }

  lemma {:induction false} RecordsInOrder<T(!new)>(xs: seq<T>, words: T -> seq<Word>, of: seq<Word> -> T, width: nat, i: nat)
    requires Codec(words, of, width) && i < |xs|
    ensures PartIn(Pack(xs, words), i * width, words(xs[i]))
  {
    hide PartIn, Codec;
    var init, last := xs[..|xs| - 1], xs[|xs| - 1];
    PackLength(init, words, of, width);
    if i < |init| {
      RecordsInOrder(init, words, of, width, i);
      PartOfSum(Pack(init, words), words(last), i * width, words(xs[i]));
    } else {
      PartOfSum(Pack(init, words), words(last), 0, []);
    }
  }

  /** `section` begins behind `before` in `all`. */
  ghost predicate Behind(all: seq<Byte>, before: nat, section: seq<Byte>) {
    before + |section| <= |all| && forall i :: 0 <= i < |section| ==> all[before + i] == section[i]
  }

  lemma OneWord(all: seq<Byte>, before: nat, ws: seq<Word>, k: nat)
    requires Behind(all, before, ToBytes(ws)) && k < |ws|
    ensures WordAt(all, before + 4 * k, ws[k])
  {
    hide Behind, ToBytes, WordAt;
    WordsInOrder(ws);
    assert WordAt(ToBytes(ws), 0 + 4 * k, ws[k]);
    SameWord(all, before, ToBytes(ws), 4 * k, ws[k]);
  }

  lemma SameWord(all: seq<Byte>, before: nat, section: seq<Byte>, at: nat, w: nat)
    requires Behind(all, before, section) && WordAt(section, at, w)
    ensures WordAt(all, before + at, w)
  {
    assert all[before + at] == section[at] && all[before + (at + 1)] == section[at + 1]
      && all[before + (at + 2)] == section[at + 2] && all[before + (at + 3)] == section[at + 3];
  }

  lemma SliceAt(all: seq<Byte>, before: nat, ws: seq<Word>, k: nat, n: nat)
    requires Behind(all, before, ToBytes(ws)) && k + n <= |ws|
    ensures WordsAt(all, before + 4 * k, ws[k..k + n])
  {
    hide Behind, WordAt, ToBytes, WordsAt;
    forall j: nat | j < n ensures WordAt(all, before + 4 * k + 4 * j, ws[k + j]) {
      OneWord(all, before, ws, k + j);
    }
    SliceWords(all, before, ws, k, n);
  }

  lemma SliceWords(all: seq<Byte>, before: nat, ws: seq<Word>, k: nat, n: nat)
    requires k + n <= |ws| && forall j: nat | j < n :: WordAt(all, before + 4 * k + 4 * j, ws[k + j])
    ensures WordsAt(all, before + 4 * k, ws[k..k + n])
  {
    hide WordAt;
  }

  lemma PartAt(all: seq<Byte>, before: nat, ws: seq<Word>, k: nat, part: seq<Word>)
    requires Behind(all, before, ToBytes(ws)) && PartIn(ws, k, part)
    ensures WordsAt(all, before + 4 * k, part)
  {
    hide WordsAt, Behind, ToBytes;
    SliceAt(all, before, ws, k, |part|);
  }

  /** Record `i` lies `i` widths into its section, wherever the section lies. */
  lemma RecordAt<T(!new)>(all: seq<Byte>, before: nat, xs: seq<T>, words: T -> seq<Word>, of: seq<Word> -> T,
                          width: nat, i: nat, ws: seq<Word>)
    requires Codec(words, of, width) && i < |xs| && ws == Pack(xs, words) && Behind(all, before, ToBytes(ws))
    ensures WordsAt(all, before + 4 * (i * width), words(xs[i]))
  {
    hide *;
    RecordsInOrder(xs, words, of, width, i);
    PartAt(all, before, ws, i * width, words(xs[i]));
  }

  /** Where the sections begin. */
  lemma SectionsBehind(b: Parts)
    requires Addressable(|b.nodes|, |b.prims|, |b.materials|)
    ensures var n, p, m := |b.nodes|, |b.prims|, |b.materials|;
            |Serialized(b)| == 64 + 32 * n + 64 * p + 32 * m
            && Behind(Serialized(b), 0, ToBytes(HeaderWords(n, p, m)))
            && Behind(Serialized(b), 64, ToBytes(Pack(b.nodes, NodeWords)))
            && Behind(Serialized(b), 64 + 32 * n, ToBytes(Pack(b.prims, PrimWords)))
            && Behind(Serialized(b), 64 + 32 * n + 64 * p, ToBytes(Pack(b.materials, MaterialWords)))
  {
    hide Behind, ToBytes, Pack, HeaderWords;
    var hs, ns := ToBytes(HeaderWords(|b.nodes|, |b.prims|, |b.materials|)), ToBytes(Pack(b.nodes, NodeWords));
    var ps, ms := ToBytes(Pack(b.prims, PrimWords)), ToBytes(Pack(b.materials, MaterialWords));
    SerializedSections(b);
    FourBehind(hs, ns, ps, ms);
    assert Serialized(b) == hs + ns + ps + ms;
    hide *;
  }

  lemma FourBehind(a: seq<Byte>, b: seq<Byte>, c: seq<Byte>, d: seq<Byte>)
    ensures var s := a + b + c + d;
            |s| == |a| + |b| + |c| + |d|
            && Behind(s, 0, a) && Behind(s, |a|, b) && Behind(s, |a| + |b|, c) && Behind(s, |a| + |b| + |c|, d)
  {
  }

  /** "P2BV", version 1, the three counts, the three offsets, the length, and
      seven zero words. */
  lemma HeaderLayout(b: Parts)
    requires Addressable(|b.nodes|, |b.prims|, |b.materials|)
    ensures var n, p, m := |b.nodes|, |b.prims|, |b.materials|;
            var prims, materials, end := 64 + 32 * n, 64 + 32 * n + 64 * p, 64 + 32 * n + 64 * p + 32 * m;
            |Serialized(b)| == end
            && WordsAt(Serialized(b), 0, [0x5642_3250, 1, n, p, m, 64, prims, materials, end, 0, 0, 0, 0, 0, 0, 0])
  {
    var hs := HeaderWords(|b.nodes|, |b.prims|, |b.materials|);
    SectionsBehind(b);
    hide WordsAt, WordAt, Serialized, Behind, ToBytes, Pack;
    SliceAt(Serialized(b), 0, hs, 0, 16);
    assert hs[0..16] == hs;
  }

  /** A node: lower corner, first primitive or left child, upper corner, count and flag. */
  lemma NodeLayout(b: Parts, i: nat)
    requires Addressable(|b.nodes|, |b.prims|, |b.materials|) && i < |b.nodes|
    ensures var o := b.nodes[i];
            WordsAt(Serialized(b), 64 + 32 * i, [o.mn.x, o.mn.y, o.mn.z, o.leftOrFirst, o.mx.x, o.mx.y, o.mx.z, o.countAndLeaf])
  {
    hide WordsAt, WordAt, Serialized, Behind, ToBytes, Pack, Codec, HeaderWords;
    SectionsBehind(b);
    NodeCodec();
    RecordAt(Serialized(b), 64, b.nodes, NodeWords, NodeOf, 8, i, Pack(b.nodes, NodeWords));
  }

  /** A primitive: kind, material, two unused words, centre or first vertex,
      radius, second vertex, an unused word, third vertex, an unused word. */
  lemma PrimLayout(b: Parts, i: nat)
    requires Addressable(|b.nodes|, |b.prims|, |b.materials|) && i < |b.prims|
    ensures var o := b.prims[i];
            WordsAt(Serialized(b), 64 + 32 * |b.nodes| + 64 * i,
                    [o.kind, o.material, o.pad0, o.pad1, o.a.x, o.a.y, o.a.z, o.radius,
                     o.b.x, o.b.y, o.b.z, o.pad2, o.c.x, o.c.y, o.c.z, o.pad3])
  {
    hide WordsAt, WordAt, Serialized, Behind, ToBytes, Pack, Codec, HeaderWords;
    SectionsBehind(b);
    PrimCodec();
    RecordAt(Serialized(b), 64 + 32 * |b.nodes|, b.prims, PrimWords, PrimOf, 16, i, Pack(b.prims, PrimWords));
  }

  /** A material: albedo, fuzz, kind, three unused words. */
  lemma MaterialLayout(b: Parts, i: nat)
    requires Addressable(|b.nodes|, |b.prims|, |b.materials|) && i < |b.materials|
    ensures var o := b.materials[i];
            WordsAt(Serialized(b), 64 + 32 * |b.nodes| + 64 * |b.prims| + 32 * i,
                    [o.albedo.x, o.albedo.y, o.albedo.z, o.fuzz, o.kind, o.pad.x, o.pad.y, o.pad.z])
  {
    hide WordsAt, WordAt, Serialized, Behind, ToBytes, Pack, Codec, HeaderWords;
    SectionsBehind(b);
    MaterialCodec();
    RecordAt(Serialized(b), 64 + 32 * |b.nodes| + 64 * |b.prims|, b.materials, MaterialWords, MaterialOf, 8, i,
             Pack(b.materials, MaterialWords));
  }

  /** A node in numbers: bit 31 marks a leaf, and the rest is its count. */
  ghost predicate NodeFits(n: Node, i: nat, nodes: nat, prims: nat) {
    if n.countAndLeaf >= 0x8000_0000
    then n.countAndLeaf > 0x8000_0000 && n.leftOrFirst + n.countAndLeaf - 0x8000_0000 <= prims
    else n.countAndLeaf == 0 && i < n.leftOrFirst && n.leftOrFirst + 1 < nodes
  }

  lemma NodeOkIff(nodes: seq<Node>, prims: nat, i: nat)
    requires i < |nodes|
    ensures NodeOk(nodes, prims, i) <==> NodeFits(nodes[i], i, |nodes|, prims)
  {
    var c: int := nodes[i].countAndLeaf;
    assert c % 0x8000_0000 == if c >= 0x8000_0000 then c - 0x8000_0000 else c;
  }

  /** What a well-formed hierarchy is, in numbers: the caps, ranges and references
      in bounds, and one parent for every node but the root. */
  lemma WellFormedIff(b: Parts)
    ensures WellFormed(b) <==>
              0 < |b.nodes| <= 8388608 && 0 < |b.prims| <= 4194304 && 0 < |b.materials| <= 65536
              && (forall i: nat | i < |b.nodes| :: NodeFits(b.nodes[i], i, |b.nodes|, |b.prims|))
              && (forall i :: 0 <= i < |b.prims| ==> b.prims[i].kind <= 1 && b.prims[i].material < |b.materials|)
              && (forall i :: 0 <= i < |b.materials| ==> b.materials[i].kind <= 2)
              && IsTree(ShapeOf(b.nodes))
  {
    forall i: nat | i < |b.nodes| ensures NodeOk(b.nodes, |b.prims|, i) <==> NodeFits(b.nodes[i], i, |b.nodes|, |b.prims|) {
      NodeOkIff(b.nodes, |b.prims|, i);
    }
    hide NodeOk, NodeFits, IsTree, ShapeOf;
  }

  /** The largest leaf, off the nodes' last words. */
  lemma {:induction false} LargestLeafIs(nodes: seq<Node>, n: nat)
    requires n <= |nodes|
    ensures forall i :: 0 <= i < n && nodes[i].countAndLeaf >= 0x8000_0000 ==> nodes[i].countAndLeaf - 0x8000_0000 <= MaxLeaf(nodes, n)
    ensures MaxLeaf(nodes, n) > 0 ==> exists i :: 0 <= i < n && nodes[i].countAndLeaf == 0x8000_0000 + MaxLeaf(nodes, n)
  {
    if n > 0 {
      LargestLeafIs(nodes, n - 1);
      var c: int := nodes[n - 1].countAndLeaf;
      assert c >= 0x8000_0000 ==> c % 0x8000_0000 == c - 0x8000_0000;
      if MaxLeaf(nodes, n) == MaxLeaf(nodes, n - 1) > 0 {
        var i :| 0 <= i < n - 1 && nodes[i].countAndLeaf == 0x8000_0000 + MaxLeaf(nodes, n - 1);
      }
    }
  }
}
