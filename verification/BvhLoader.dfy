/** Writing a tree and reading an untrusted one back (`SerializeBvh`, `LoadBvh`
    of src/scene/bvh.cpp). The loader accepts exactly what the serializer can
    write for a well-formed tree. */
module BvhLoader {
  import opened Basics
  import opened BvhTrees
  import opened BvhFormat
  import opened Words

  datatype Parts = Parts(nodes: seq<Node>, prims: seq<Prim>, materials: seq<Material>)
  datatype Bvh = Bvh(parts: Parts, maxDepth: nat, maxLeafPrims: nat)

  datatype Reason =
    | TooShort | BadMagic | BadVersion | ReservedInUse | NodeCount | PrimCount | MaterialCount
    | Offsets | Length | BadNode | BadPrim | BadMaterial | NotATree

  datatype Loaded = Ok(bvh: Bvh) | Rejected(reason: Reason)

  // ---- what a well-formed tree is ------------------------------------------------

  predicate CountsOk(n: int, p: int, m: int) {
    0 < n <= MAX_NODES && 0 < p <= MAX_PRIMS && 0 < m <= MAX_MATERIALS
  }

  predicate NodeOk(nodes: seq<Node>, prims: nat, i: nat)
    requires i < |nodes|
  {
    var n := nodes[i];
    if IsLeaf(n) then Count(n) > 0 && n.leftOrFirst + Count(n) <= prims
    else Count(n) == 0 && i < n.leftOrFirst && n.leftOrFirst + 1 < |nodes|
  }

  ghost predicate NodesOk(nodes: seq<Node>, prims: nat) {
    forall i :: 0 <= i < |nodes| ==> NodeOk(nodes, prims, i)
  }

  predicate PrimOk(p: Prim, materials: nat) {
    (p.kind == SPHERE || p.kind == TRIANGLE) && p.material < materials
  }

  function ShapeOf(nodes: seq<Node>): (k: Shape)
    ensures |k| == |nodes|
    ensures forall i :: 0 <= i < |nodes| ==> k[i] == if IsLeaf(nodes[i]) then None else Some(nodes[i].leftOrFirst as nat)
  {
    seq(|nodes|, (i: nat) requires i < |nodes| => if IsLeaf(nodes[i]) then None else Some(nodes[i].leftOrFirst as nat))
  }

  ghost predicate WellFormed(b: Parts) {
    CountsOk(|b.nodes|, |b.prims|, |b.materials|)
    && NodesOk(b.nodes, |b.prims|)
    && (forall i :: 0 <= i < |b.prims| ==> PrimOk(b.prims[i], |b.materials|))
    && (forall i :: 0 <= i < |b.materials| ==> b.materials[i].kind <= EMISSIVE)
    && IsTree(ShapeOf(b.nodes))
  }

  /** The largest leaf among the first `n` nodes. */
  function MaxLeaf(nodes: seq<Node>, n: nat): nat
    requires n <= |nodes|
  {
    if n == 0 then 0
    else
      var m := MaxLeaf(nodes, n - 1);
      if IsLeaf(nodes[n - 1]) && Count(nodes[n - 1]) > m then Count(nodes[n - 1]) else m
  }

  // ---- the bytes --------------------------------------------------------------------

  function PrimOffset(n: nat): nat { 64 + 32 * n }
  function MaterialOffset(n: nat, p: nat): nat { PrimOffset(n) + 64 * p }
  function Total(n: nat, p: nat, m: nat): nat { MaterialOffset(n, p) + 32 * m }

  /** Counts and offsets fit the header's words. */
  predicate Addressable(n: nat, p: nat, m: nat) {
    Total(n, p, m) < 0x1_0000_0000
  }

  function HeaderWords(n: nat, p: nat, m: nat): (h: seq<Word>)
    requires Addressable(n, p, m)
    ensures |h| == HEADER_WORDS
  {
    [MAGIC, VERSION, n, p, m, 64, PrimOffset(n), MaterialOffset(n, p), Total(n, p, m), 0, 0, 0, 0, 0, 0, 0]
  }

  function Serialized(b: Parts): seq<Byte>
    requires Addressable(|b.nodes|, |b.prims|, |b.materials|)
  {
    ToBytes(HeaderWords(|b.nodes|, |b.prims|, |b.materials|))
    + ToBytes(Pack(b.nodes, NodeWords)) + ToBytes(Pack(b.prims, PrimWords)) + ToBytes(Pack(b.materials, MaterialWords))
  }

  /** `n` records of one section. */
  function Section<T>(bytes: seq<Byte>, n: nat, width: nat, of: seq<Word> -> T): (xs: seq<T>)
    requires |bytes| == 4 * (n * width)
    ensures |xs| == n
  {
    Unpack(ToWords(bytes), n, width, of)
  }

  /** The three sections, copied out of the buffer. */
  function Decoded(bytes: seq<Byte>, n: nat, p: nat, m: nat): (b: Parts)
    requires |bytes| == Total(n, p, m)
    ensures |b.nodes| == n && |b.prims| == p && |b.materials| == m
  {
    Parts(Section(bytes[64..PrimOffset(n)], n, NODE_WORDS, NodeOf),
          Section(bytes[PrimOffset(n)..MaterialOffset(n, p)], p, PRIM_WORDS, PrimOf),
          Section(bytes[MaterialOffset(n, p)..], m, MATERIAL_WORDS, MaterialOf))
  }

  lemma SectionForth<T(!new)>(xs: seq<T>, words: T -> seq<Word>, of: seq<Word> -> T, width: nat)
    requires Codec(words, of, width)
    ensures var bs := ToBytes(Pack(xs, words));
            |bs| == 4 * (|xs| * width) && Section(bs, |xs|, width, of) == xs
  {
    UnpackPack(xs, words, of, width);
    WordsOfBytes(Pack(xs, words));
  }

  lemma SectionBack<T(!new)>(bs: seq<Byte>, n: nat, words: T -> seq<Word>, of: seq<Word> -> T, width: nat)
    requires Codec(words, of, width) && |bs| == 4 * (n * width)
    ensures ToBytes(Pack(Section(bs, n, width, of), words)) == bs
  {
    var ws := ToWords(bs);
    PackUnpack(ws, n, words, of, width);
    assert Pack(Section(bs, n, width, of), words) == ws;
    BytesOfWords(bs);
  }

  lemma SerializedSections(b: Parts)
    requires Addressable(|b.nodes|, |b.prims|, |b.materials|)
    ensures var n, p, m := |b.nodes|, |b.prims|, |b.materials|;
            |ToBytes(HeaderWords(n, p, m))| == 64 && |ToBytes(Pack(b.nodes, NodeWords))| == 32 * n
            && |ToBytes(Pack(b.prims, PrimWords))| == 64 * p && |ToBytes(Pack(b.materials, MaterialWords))| == 32 * m
    ensures var n, p, m := |b.nodes|, |b.prims|, |b.materials|;
            Section(ToBytes(Pack(b.nodes, NodeWords)), n, NODE_WORDS, NodeOf) == b.nodes
            && Section(ToBytes(Pack(b.prims, PrimWords)), p, PRIM_WORDS, PrimOf) == b.prims
            && Section(ToBytes(Pack(b.materials, MaterialWords)), m, MATERIAL_WORDS, MaterialOf) == b.materials
  {
    NodeCodec();
    PrimCodec();
    MaterialCodec();
    SectionForth(b.nodes, NodeWords, NodeOf, NODE_WORDS);
    SectionForth(b.prims, PrimWords, PrimOf, PRIM_WORDS);
    SectionForth(b.materials, MaterialWords, MaterialOf, MATERIAL_WORDS);
  }

  lemma FourSlices(a: seq<Byte>, b: seq<Byte>, c: seq<Byte>, d: seq<Byte>)
    ensures var s := a + b + c + d;
            s[..|a|] == a && s[|a|..|a| + |b|] == b && s[|a| + |b|..|a| + |b| + |c|] == c && s[|a| + |b| + |c|..] == d
  {
  }

  lemma DecodedSections(hs: seq<Byte>, ns: seq<Byte>, ps: seq<Byte>, ms: seq<Byte>, n: nat, p: nat, m: nat)
    requires |hs| == 64 && |ns| == 32 * n && |ps| == 64 * p && |ms| == 32 * m
    ensures var bytes := hs + ns + ps + ms;
            |bytes| == Total(n, p, m) && bytes[..64] == hs
    ensures var bytes := hs + ns + ps + ms;
            Decoded(bytes, n, p, m)
               == Parts(Section(ns, n, NODE_WORDS, NodeOf), Section(ps, p, PRIM_WORDS, PrimOf),
                        Section(ms, m, MATERIAL_WORDS, MaterialOf))
  {
    FourSlices(hs, ns, ps, ms);
  }

  /** Reading back what was written gives the same header and the same parts. */
  lemma DecodeSerialized(b: Parts)
    requires Addressable(|b.nodes|, |b.prims|, |b.materials|)
    ensures var bytes, n, p, m := Serialized(b), |b.nodes|, |b.prims|, |b.materials|;
            |bytes| == Total(n, p, m) && ToWords(bytes[..64]) == HeaderWords(n, p, m) && Decoded(bytes, n, p, m) == b
  {
    var n, p, m := |b.nodes|, |b.prims|, |b.materials|;
    SerializedSections(b);
    WordsOfBytes(HeaderWords(n, p, m));
    DecodedSections(ToBytes(HeaderWords(n, p, m)), ToBytes(Pack(b.nodes, NodeWords)), ToBytes(Pack(b.prims, PrimWords)),
                    ToBytes(Pack(b.materials, MaterialWords)), n, p, m);
  }

  /** Writing what was read gives the same bytes, padding included. */
  lemma SerializeDecoded(bytes: seq<Byte>, n: nat, p: nat, m: nat)
    requires Addressable(n, p, m) && |bytes| == Total(n, p, m) && ToWords(bytes[..64]) == HeaderWords(n, p, m)
    ensures Serialized(Decoded(bytes, n, p, m)) == bytes
  {
    var hs, ns := bytes[..64], bytes[64..PrimOffset(n)];
    var ps, ms := bytes[PrimOffset(n)..MaterialOffset(n, p)], bytes[MaterialOffset(n, p)..];
    assert bytes == hs + ns + ps + ms;
    NodeCodec();
    PrimCodec();
    MaterialCodec();
    BytesOfWords(hs);
    SectionBack(ns, n, NodeWords, NodeOf, NODE_WORDS);
    SectionBack(ps, p, PrimWords, PrimOf, PRIM_WORDS);
    SectionBack(ms, m, MaterialWords, MaterialOf, MATERIAL_WORDS);
  }

  method PutSections(out: array<Byte>, hs: seq<Byte>, ns: seq<Byte>, ps: seq<Byte>, ms: seq<Byte>)
    requires out.Length == |hs| + |ns| + |ps| + |ms|
    modifies out
    ensures out[..] == hs + ns + ps + ms
  {
    Copy(out, 0, hs);
    assert out[..|hs|] == hs;
    Copy(out, |hs|, ns);
    Copy(out, |hs| + |ns|, ps);
    Copy(out, |hs| + |ns| + |ps|, ms);
    assert out[..out.Length] == out[..];
  }

  method SerializeBvh(b: Parts) returns (out: array<Byte>)
    requires Addressable(|b.nodes|, |b.prims|, |b.materials|)
    ensures fresh(out) && out[..] == Serialized(b)
  {
    var n, p, m := |b.nodes|, |b.prims|, |b.materials|;
    SerializedSections(b);
    out := new Byte[Total(n, p, m)](_ => 0);
    PutSections(out, ToBytes(HeaderWords(n, p, m)), ToBytes(Pack(b.nodes, NodeWords)), ToBytes(Pack(b.prims, PrimWords)),
                ToBytes(Pack(b.materials, MaterialWords)));
  }

  // ---- the checks, one loop each -------------------------------------------------------

  method CheckNodes(nodes: seq<Node>, prims: nat) returns (ok: bool, maxLeaf: nat)
    ensures ok <==> NodesOk(nodes, prims)
    ensures ok ==> maxLeaf == MaxLeaf(nodes, |nodes|)
  {
    maxLeaf := 0;
    for i := 0 to |nodes|
      invariant forall j :: 0 <= j < i ==> NodeOk(nodes, prims, j)
      invariant maxLeaf == MaxLeaf(nodes, i)
    {
      var n := nodes[i];
      if IsLeaf(n) {
        if Count(n) == 0 || n.leftOrFirst + Count(n) > prims {
          assert !NodeOk(nodes, prims, i);
          return false, 0;
        }
        if Count(n) > maxLeaf { maxLeaf := Count(n); }
      } else {
        if Count(n) != 0 || n.leftOrFirst <= i || n.leftOrFirst + 1 >= |nodes| {
          assert !NodeOk(nodes, prims, i);
          return false, 0;
        }
      }
    }
    ok := true;
  }

  /** Somebody among the first `n` nodes names `c` as a child. */
  ghost predicate Named(k: Shape, n: nat, c: nat) {
    exists p: nat :: p < n && IsChild(k, p, c)
  }

  /** In-degrees: nobody is named twice, and everybody but the root is named. */
  method CheckTree(nodes: seq<Node>) returns (ok: bool)
    requires nodes != [] && Increasing(ShapeOf(nodes))
    ensures ok <==> IsTree(ShapeOf(nodes))
  {
    ghost var k := ShapeOf(nodes);
    var named := new bool[|nodes|](_ => false);
    for i := 0 to |nodes|
      invariant forall c: nat :: c < |nodes| ==> (named[c] <==> Named(k, i, c))
      invariant forall p: nat, q: nat, c: nat :: p < i && q < i && IsChild(k, p, c) && IsChild(k, q, c) ==> p == q
    {
      NamedNext(k, i);
      if IsLeaf(nodes[i]) { continue; }
      var left: nat := nodes[i].leftOrFirst;
      if left == 0 || named[left] || named[left + 1] {
        TwiceNamed(k, i, if named[left] then left else left + 1);
        return false;
      }
      named[left] := true;
      named[left + 1] := true;
    }
    for c := 1 to |nodes|
      invariant forall d: nat :: d < |nodes| ==> (named[d] <==> Named(k, |nodes|, d))
      invariant forall d :: 0 < d < c ==> HasParent(k, d)
    {
      NamedByAnybody(k, c);
      if !named[c] { return false; }
    }
    ok := true;
  }

  lemma NamedByAnybody(k: Shape, c: nat)
    ensures Named(k, |k|, c) <==> HasParent(k, c)
  {
    if HasParent(k, c) {
      var p: nat :| IsChild(k, p, c);
      assert p < |k|;
    }
  }

  lemma NamedNext(k: Shape, i: nat)
    requires i < |k|
    ensures forall c: nat :: Named(k, i + 1, c) <==> Named(k, i, c) || IsChild(k, i, c)
  {
    forall c: nat ensures Named(k, i + 1, c) <==> Named(k, i, c) || IsChild(k, i, c) {
      if Named(k, i + 1, c) {
        var p: nat :| p < i + 1 && IsChild(k, p, c);
        assert p < i ==> Named(k, i, c);
      } else {
        assert !IsChild(k, i, c);
      }
    }
  }

  lemma TwiceNamed(k: Shape, i: nat, c: nat)
    requires Named(k, i, c) && IsChild(k, i, c)
    ensures !IsTree(k)
  {
    var p: nat :| p < i && IsChild(k, p, c);
    assert p != i;
  }

  ghost predicate DepthKnown(k: Shape, depth: seq<nat>, n: nat, c: nat)
    requires IsTree(k) && |depth| == |k| && c < |k|
  {
    c == 0 || Named(k, n, c) ==> depth[c] == Depth(k, c)
  }

  /** The depth of the root and of every child of the first `n` nodes is known. */
  ghost predicate DepthsKnown(k: Shape, depth: seq<nat>, n: nat)
    requires IsTree(k) && |depth| == |k|
  {
    forall c: nat :: c < |k| ==> DepthKnown(k, depth, n, c)
  }

  lemma DepthKnownNext(k: Shape, before: seq<nat>, after: seq<nat>, i: nat, c: nat)
    requires IsTree(k) && |before| == |after| == |k| && i < |k| && c < |k|
    requires DepthKnown(k, before, i, c) && before[i] == Depth(k, i)
    requires after[c] == if IsChild(k, i, c) then before[i] + 1 else before[c]
    ensures DepthKnown(k, after, i + 1, c)
  {
    NamedNext(k, i);
    if IsChild(k, i, c) {
      ChildDepth(k, i, c);
    }
  }

  lemma DepthsNext(k: Shape, before: seq<nat>, after: seq<nat>, i: nat)
    requires IsTree(k) && |before| == |k| && i < |k| && DepthsKnown(k, before, i) && before[i] == Depth(k, i)
    requires k[i].Some? ==> k[i].value + 1 < |k|
    requires after == if k[i].None? then before else before[k[i].value := before[i] + 1][k[i].value + 1 := before[i] + 1]
    ensures DepthsKnown(k, after, i + 1)
  {
    var next := i + 1;
    forall c: nat | c < |k| ensures DepthKnown(k, after, next, c) {
      DepthKnownNext(k, before, after, i, c);
    }
  }

  lemma DepthHere(k: Shape, depth: seq<nat>, i: nat)
    requires IsTree(k) && |depth| == |k| && i < |k| && DepthsKnown(k, depth, i)
    ensures depth[i] == Depth(k, i) >= 1
  {
    ParentFirst(k, i);
    assert DepthKnown(k, depth, i, i);
  }

  lemma RootKnown(k: Shape, depth: seq<nat>)
    requires IsTree(k) && |depth| == |k| && depth[0] == 1
    ensures DepthsKnown(k, depth, 0)
  {
    RootDepth(k);
    forall c: nat | c < |k| ensures DepthKnown(k, depth, 0, c) {
      assert !Named(k, 0, c);
    }
  }

  /** Depths are recomputed, parents before children. */
  method Depths(nodes: seq<Node>) returns (maxDepth: nat)
    requires IsTree(ShapeOf(nodes))
    ensures IsMaxDepth(ShapeOf(nodes), maxDepth)
  {
    ghost var k, deepest := ShapeOf(nodes), 0;
    var depth := new nat[|nodes|](_ => 0);
    depth[0] := 1;
    maxDepth := 0;
    RootKnown(k, depth[..]);
    for i := 0 to |nodes|
      invariant DepthsKnown(k, depth[..], i)
      invariant forall c: nat :: c < i ==> Depth(k, c) <= maxDepth
      invariant if i == 0 then maxDepth == 0 else deepest < i && Depth(k, deepest) == maxDepth
    {
      ghost var before := depth[..];
      DepthHere(k, before, i);
      if depth[i] > maxDepth { maxDepth, deepest := depth[i], i; }
      if !IsLeaf(nodes[i]) {
        var left: nat := nodes[i].leftOrFirst;
        depth[left] := depth[i] + 1;
        depth[left + 1] := depth[i] + 1;
      }
      DepthsNext(k, before, depth[..], i);
    }
  }

  lemma ParentFirst(k: Shape, c: nat)
    requires IsTree(k) && c < |k|
    ensures c == 0 || Named(k, c, c)
  {
    if c > 0 {
      assert HasParent(k, c);
      var p: nat :| IsChild(k, p, c);
      assert p < c;
    }
  }

  method CheckContents(b: Parts) returns (bad: Option<Reason>)
    ensures bad.None? <==> (forall i :: 0 <= i < |b.prims| ==> PrimOk(b.prims[i], |b.materials|))
                           && (forall i :: 0 <= i < |b.materials| ==> b.materials[i].kind <= EMISSIVE)
  {
    for i := 0 to |b.prims|
      invariant forall j :: 0 <= j < i ==> PrimOk(b.prims[j], |b.materials|)
    {
      var p := b.prims[i];
      if p.kind != SPHERE && p.kind != TRIANGLE { return Some(BadPrim); }
      if p.material >= |b.materials| { return Some(BadPrim); }
    }
    for i := 0 to |b.materials|
      invariant forall j :: 0 <= j < i ==> b.materials[j].kind <= EMISSIVE
    {
      if b.materials[i].kind > EMISSIVE { return Some(BadMaterial); }
    }
    bad := None;
  }

  // ---- the loader -------------------------------------------------------------------------

  /** The header and the length are those of some three section sizes. */
  ghost predicate Framed(bytes: seq<Byte>, n: nat, p: nat, m: nat) {
    CountsOk(n, p, m) && |bytes| == Total(n, p, m) && ToWords(bytes[..64]) == HeaderWords(n, p, m)
  }

  method CheckHeader(bytes: seq<Byte>) returns (bad: Option<Reason>, n: nat, p: nat, m: nat)
    ensures bad.None? ==> Framed(bytes, n, p, m)
    ensures bad.Some? ==> forall a: nat, b: nat, c: nat :: !Framed(bytes, a, b, c)
  {
    n, p, m := 0, 0, 0;
    if |bytes| < 64 { return Some(TooShort), n, p, m; }
    var h := ToWords(bytes[..64]);
    if h[0] != MAGIC { return Some(BadMagic), n, p, m; }
    if h[1] != VERSION { return Some(BadVersion), n, p, m; }
    for i := 9 to HEADER_WORDS
      invariant forall j :: 9 <= j < i ==> h[j] == 0
    {
      if h[i] != 0 { return Some(ReservedInUse), n, p, m; }
    }
    n, p, m := h[2], h[3], h[4];
    if n == 0 || n > MAX_NODES { return Some(NodeCount), n, p, m; }
    if p == 0 || p > MAX_PRIMS { return Some(PrimCount), n, p, m; }
    if m == 0 || m > MAX_MATERIALS { return Some(MaterialCount), n, p, m; }
    if h[5] != 64 || h[6] != PrimOffset(n) || h[7] != MaterialOffset(n, p) || h[8] != Total(n, p, m) {
      return Some(Offsets), n, p, m;
    }
    if |bytes| != Total(n, p, m) { return Some(Length), n, p, m; }
    bad := None;
    assert h == HeaderWords(n, p, m);
  }

  /** Accepts exactly the bytes the serializer writes for a well-formed tree,
      and returns that tree, with its true depth and its largest leaf. */
  method LoadBvh(bytes: seq<Byte>) returns (r: Loaded)
    ensures r.Ok? ==> WellFormed(r.bvh.parts) && Serialized(r.bvh.parts) == bytes
                      && IsMaxDepth(ShapeOf(r.bvh.parts.nodes), r.bvh.maxDepth)
                      && r.bvh.maxLeafPrims == MaxLeaf(r.bvh.parts.nodes, |r.bvh.parts.nodes|)
    ensures r.Rejected? ==> forall b: Parts | WellFormed(b) :: Serialized(b) != bytes
  {
    var bad, n, p, m := CheckHeader(bytes);
    if bad.Some? {
      NeverFramed(bytes);
      return Rejected(bad.value);
    }
    var b := Decoded(bytes, n, p, m);
    OnlyDecoded(bytes, n, p, m);
    var nodesOk, maxLeaf := CheckNodes(b.nodes, p);
    if !nodesOk { return Rejected(BadNode); }
    bad := CheckContents(b);
    if bad.Some? { return Rejected(bad.value); }
    NodesIncrease(b.nodes, p);
    var isTree := CheckTree(b.nodes);
    if !isTree { return Rejected(NotATree); }
    var maxDepth := Depths(b.nodes);
    r := Ok(Bvh(b, maxDepth, maxLeaf));
  }

  lemma NodesIncrease(nodes: seq<Node>, prims: nat)
    requires NodesOk(nodes, prims)
    ensures Increasing(ShapeOf(nodes))
  {
    forall i | 0 <= i < |nodes| && ShapeOf(nodes)[i].Some? ensures i < nodes[i].leftOrFirst && nodes[i].leftOrFirst + 1 < |nodes| {
      assert NodeOk(nodes, prims, i);
    }
  }

  /** Framed bytes are the serialization of what is decoded from them, and of nothing else. */
  lemma OnlyDecoded(bytes: seq<Byte>, n: nat, p: nat, m: nat)
    requires Framed(bytes, n, p, m)
    ensures Serialized(Decoded(bytes, n, p, m)) == bytes
    ensures forall b: Parts | Addressable(|b.nodes|, |b.prims|, |b.materials|) && Serialized(b) == bytes :: b == Decoded(bytes, n, p, m)
  {
    SerializeDecoded(bytes, n, p, m);
    forall b: Parts | Addressable(|b.nodes|, |b.prims|, |b.materials|) && Serialized(b) == bytes ensures b == Decoded(bytes, n, p, m) {
      DecodeSerialized(b);
      SameHeader(n, p, m, |b.nodes|, |b.prims|, |b.materials|);
    }
  }

  lemma SameHeader(n: nat, p: nat, m: nat, n': nat, p': nat, m': nat)
    requires Addressable(n, p, m) && Addressable(n', p', m') && HeaderWords(n, p, m) == HeaderWords(n', p', m')
    ensures n == n' && p == p' && m == m'
  {
    assert HeaderWords(n, p, m)[2] == n && HeaderWords(n, p, m)[3] == p && HeaderWords(n, p, m)[4] == m;
  }

  lemma NeverFramed(bytes: seq<Byte>)
    requires forall a: nat, b: nat, c: nat :: !Framed(bytes, a, b, c)
    ensures forall b: Parts | WellFormed(b) :: Serialized(b) != bytes
  {
    forall b: Parts | WellFormed(b) ensures Serialized(b) != bytes {
      DecodeSerialized(b);
      assert Framed(Serialized(b), |b.nodes|, |b.prims|, |b.materials|);
    }
  }
}
