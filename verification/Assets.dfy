/** Bulk assets in chunks: the coordinator serves ranges (`OnAssetRequest` in
    src/coordinator/session.cpp), the worker reassembles them
    (`HandleAssetChunk` in src/worker-core/task_loop.cpp) under the checks of
    src/protocol/invariants.cpp. */
module Assets {
  import opened Basics
  import opened TileGrids
  import opened Words

  const CHUNK: nat := 16384
  const BATCH: nat := 64
  const MAX_ASSET: nat := 0x1000_0000
  const WORD_SPAN: nat := 0x1_0000_0000

  datatype Chunk = Chunk(index: Word, total: Word, bytes: seq<Byte>)

  function ChunkCount(size: nat): nat { (size + CHUNK - 1) / CHUNK }

  function Offset(i: nat): nat { i * CHUNK }

  /** How long chunk `i` of an asset of `size` bytes is: full, unless it is the last. */
  function ChunkSize(size: nat, i: nat): nat
    requires i < ChunkCount(size)
  {
    if i + 1 == ChunkCount(size) then size - Offset(i) else CHUNK
  }

  /** The chunks fill the asset: each starts inside it, and the next one starts
      where it ends. */
  lemma ChunksTile(size: nat, i: nat)
    requires i < ChunkCount(size)
    ensures Offset(i) < size && 0 < ChunkSize(size, i) <= CHUNK
    ensures Offset(i) + ChunkSize(size, i) == Min(Offset(i + 1), size)
    ensures i + 1 == ChunkCount(size) <==> Offset(i + 1) >= size
  {
  }

  function ChunkOf(blob: seq<Byte>, i: nat): (b: seq<Byte>)
    requires i < ChunkCount(|blob|)
    ensures |b| == ChunkSize(|blob|, i)
  {
    ChunksTile(|blob|, i);
    blob[Offset(i)..Offset(i) + ChunkSize(|blob|, i)]
  }

  // ---- serving ---------------------------------------------------------------------

  datatype Reply = Miss | Chunks(chunks: seq<Chunk>)

  /** The end of the range served: what was asked, what exists, at most a batch.
      The addition is done in 32 bits. */
  function ServedEnd(total: nat, from: Word, to: Word): nat {
    Min(Min(to, total), (from + BATCH) % WORD_SPAN)
  }

  method OnAssetRequest(blob: Option<seq<Byte>>, from: Word, to: Word) returns (r: Reply)
    ensures blob.None? || !(0 < ChunkCount(|blob.value|) < WORD_SPAN) || from >= Min(to, ChunkCount(|blob.value|)) <==> r.Miss?
    ensures r.Chunks? ==>
      var total, end := ChunkCount(|blob.value|), ServedEnd(ChunkCount(|blob.value|), from, to);
      |r.chunks| == (if end < from then 0 else end - from)
      && forall k :: 0 <= k < |r.chunks| ==> from + k < total && r.chunks[k] == Chunk(from + k, total, ChunkOf(blob.value, from + k))
  {
    if blob.None? { return Miss; }
    var b := blob.value;
    var total := ChunkCount(|b|);
    if total == 0 || total >= WORD_SPAN { return Miss; }
    if from >= Min(to, total) { return Miss; }
    var end, out := ServedEnd(total, from, to), [];
    var i: nat := from;
    while i < end
      invariant |out| == i - from && (i <= end || i == from)
      invariant forall k :: 0 <= k < |out| ==> from + k < total && out[k] == Chunk(from + k, total, ChunkOf(b, from + k))
    {
      ChunksTile(|b|, i);
      var offset := Offset(i);
      if offset >= |b| { break; }
      var len := Min(CHUNK, |b| - offset);
      out := out + [Chunk(i, total, b[offset..offset + len])];
      i := i + 1;
    }
    r := Chunks(out);
  }

  // ---- the receiver's check ------------------------------------------------------------

  datatype ChunkFault = TotalDisagrees | IndexOutOfRange | TooLarge | ShortBeforeEnd

  function CheckAssetChunk(index: nat, total: nat, expected: nat, size: nat): Option<ChunkFault> {
    if total != expected then Some(TotalDisagrees)
    else if index >= total then Some(IndexOutOfRange)
    else if size > CHUNK then Some(TooLarge)
    else if size < CHUNK && index + 1 != total then Some(ShortBeforeEnd)
    else None
  }

  /** Every chunk of an asset passes the check against the asset's own count. */
  lemma HonestChunkPasses(size: nat, i: nat)
    requires i < ChunkCount(size)
    ensures CheckAssetChunk(i, ChunkCount(size), ChunkCount(size), ChunkSize(size, i)).None?
  {
    ChunksTile(size, i);
  }

  /** Sizes in bytes: chunk `i` is the asset's from byte `16384 * i` on, up to 16384 of them. */
  lemma ChunkIs(blob: seq<Byte>, i: nat)
    ensures i < ChunkCount(|blob|) <==> 16384 * i < |blob|
    ensures i < ChunkCount(|blob|) ==>
              ChunkOf(blob, i) == blob[16384 * i..] || ChunkOf(blob, i) == blob[16384 * i..16384 * i + 16384]
    ensures i < ChunkCount(|blob|) ==> |ChunkOf(blob, i)| == if |blob| - 16384 * i < 16384 then |blob| - 16384 * i else 16384
  {
  }

  /** Which chunks a request gets: none before `from`, at most 64, none past
      what was asked or what exists; near the 32-bit limit the sum wraps. */
  lemma ServedEndIs(total: nat, from: Word, to: Word, i: nat)
    ensures from + 64 < 0x1_0000_0000 ==>
              (from <= i < ServedEnd(total, from, to) <==> from <= i < from + 64 && i < to && i < total)
    ensures from + 64 >= 0x1_0000_0000 ==> !(from <= i < ServedEnd(total, from, to))
  {
  }

  /** What passes: the right count, an index below it, and a full chunk or the last. */
  lemma CheckIs(index: nat, total: nat, expected: nat, size: nat)
    ensures var r := CheckAssetChunk(index, total, expected, size);
            (r.None? <==> total == expected && index < total && size <= 16384 && (size == 16384 || index + 1 == total))
            && (r == Some(TotalDisagrees) <==> total != expected)
            && (r == Some(IndexOutOfRange) <==> total == expected && index >= total)
            && (r == Some(TooLarge) <==> total == expected && index < total && size > 16384)
  {
  }

  // ---- reassembly ----------------------------------------------------------------------------

  /** `Stored` and more are missing, `Finished` with the asset, or `Rejected`:
      all are there and they are not the asset. */
  datatype Outcome = Stored | Finished | Rejected | Duplicate | Abandoned | Ignored {
    predicate Kept() { Stored? || Finished? || Rejected? }
  }

  function Count(have: seq<bool>): nat {
    if have == [] then 0 else Count(have[..|have| - 1]) + if have[|have| - 1] then 1 else 0
  }

  lemma {:induction false} CountSet(have: seq<bool>, i: nat)
    requires i < |have| && !have[i]
    ensures Count(have[i := true]) == Count(have) + 1
  {
    var last := |have| - 1;
    if i == last {
      assert have[i := true][..last] == have[..last];
    } else {
      assert have[i := true][..last] == have[..last][i := true];
      CountSet(have[..last], i);
    }
  }

  lemma {:induction false} CountFull(have: seq<bool>)
    ensures Count(have) <= |have|
    ensures Count(have) == |have| <==> forall i :: 0 <= i < |have| ==> have[i]
  {
    if have != [] {
      var last := |have| - 1;
      CountFull(have[..last]);
      assert have == have[..last] + [have[last]];
    }
  }

  function Blank(n: nat): seq<bool> { seq(n, _ => false) }

  lemma {:induction false} CountNone(n: nat)
    ensures Count(Blank(n)) == 0
  {
    if n > 0 {
      assert Blank(n)[..n - 1] == Blank(n - 1);
      CountNone(n - 1);
    }
  }

  /** The first chunk at or after `from` that is missing. */
  function FirstMissing(have: seq<bool>, from: nat): (k: nat)
    requires from <= |have|
    ensures from <= k <= |have| && (k < |have| ==> !have[k]) && forall i :: from <= i < k ==> have[i]
    decreases |have| - from
  {
    if from == |have| || !have[from] then from else FirstMissing(have, from + 1)
  }

  /** The next request: a batch from the first missing chunk on. */
  function NextAsk(have: seq<bool>): (nat, nat) {
    var k := FirstMissing(have, 0); (k, Min(|have|, k + BATCH))
  }

  /** The worker asks again at every 64th chunk it keeps, until it has them all. */
  function Asks(have: seq<bool>): seq<(nat, nat)> {
    if Count(have) < |have| && Count(have) % BATCH == 0 then [NextAsk(have)] else []
  }

  /** A request goes out exactly when something is missing and a multiple of 64
      chunks is in; it asks for 64 from the first one missing. */
  lemma AsksIs(have: seq<bool>)
    ensures Asks(have) == [] <==> Count(have) >= |have| || Count(have) % 64 != 0
    ensures Asks(have) != [] ==>
              |Asks(have)| == 1
              && var (from, to) := Asks(have)[0];
                 from < |have| && !have[from] && (forall i :: 0 <= i < from ==> have[i])
                 && to == if from + 64 < |have| then from + 64 else |have|
  {
    CountFull(have);
  }

  /** Where chunk `i` was written, `piece` is what was written. */
  ghost predicate HoldsPiece(bytes: seq<Byte>, i: nat, piece: seq<Byte>) {
    Offset(i) + |piece| <= |bytes| && bytes[Offset(i)..Offset(i) + |piece|] == piece
  }

  /** `bytes` are the pieces, each whole and in its place. */
  ghost predicate Assembled(size: nat, bytes: seq<Byte>, pieces: map<nat, seq<Byte>>) {
    |bytes| == size
    && forall i :: 0 <= i < ChunkCount(size) ==>
         i in pieces && |pieces[i]| == ChunkSize(size, i) && HoldsPiece(bytes, i, pieces[i])
  }

  /** A buffer for an asset of `size` bytes; `size` comes from the coordinator.
      `genuine` says whether bytes hash to the address asked for and load. */
  class Fetch {
    const size: nat
    const genuine: seq<Byte> -> bool
    var total: nat
    var have: seq<bool>
    var bytes: seq<Byte>
    var received: nat
    /** Until it finishes or is abandoned. */
    var live: bool
    var ready: Option<seq<Byte>>
    /** Peers not tried yet, and whether one is being tried. */
    var peers: nat
    var fromPeer: bool
    /** The ranges asked of the coordinator, in order. A peer is only ever asked
        for the first batch. */
    var asked: seq<(nat, nat)>
    ghost var pieces: map<nat, seq<Byte>>

    /** Peers are tried first. */
    constructor (size: nat, genuine: seq<Byte> -> bool, peers: nat)
      ensures this.size == size && this.genuine == genuine && Valid() && live && ready.None?
      ensures total == received == 0 && pieces == map[]
      ensures fromPeer == (peers > 0) && asked == if peers > 0 then [] else [(0, BATCH)]
      ensures this.peers == if peers > 0 then peers - 1 else 0
    {
      this.size, this.genuine, total, have, bytes, received, live, pieces := size, genuine, 0, [], [], 0, true, map[];
      this.ready, this.peers, fromPeer, asked := None, peers, false, [];
      new;
      TryNext();
    }

    /** Until it ends, a fetch is waiting for chunks. */
    ghost predicate Valid()
      reads this
    {
      Consistent() && (live && total > 0 ==> received < total)
    }

    /** Once the first chunk was seen the buffer has the true size, and what was
        stored at each position is one whole chunk, written there once. */
    ghost predicate Consistent()
      reads this
    {
      if total == 0 then received == 0 && pieces == map[]
      else
        0 < size <= MAX_ASSET && total == ChunkCount(size) == |have| && |bytes| == size && received == Count(have)
        && (forall i: nat :: i in pieces <==> i < |have| && have[i])
        && (forall i <- pieces :: |pieces[i]| == ChunkSize(size, i) && HoldsPiece(bytes, i, pieces[i]))
    }

    /** Which chunks are in; none before the first one arrived. */
    ghost function Has(): seq<bool>
      reads this
    {
      if total == 0 then Blank(ChunkCount(size)) else have
    }

    /** The chunk is whole, belongs to this asset and is not there yet. */
    ghost predicate Fits(c: Chunk)
      reads this
    {
      0 < size <= MAX_ASSET && c.total == ChunkCount(size) && c.index < c.total
      && |c.bytes| == ChunkSize(size, c.index) && c.index !in pieces
    }

    /** `HandleAssetChunk`: whatever arrives, either it is kept whole at its own
        position, or it is a repeat and nothing changes, or the fetch is dropped. */
    method Handle(c: Chunk) returns (o: Outcome)
      requires Valid()
      modifies this
      ensures Valid()
      ensures o.Ignored? <==> !old(live)
      ensures o.Kept() <==> old(live) && old(Fits(c))
      ensures o.Duplicate? <==> old(live) && c.index in old(pieces) && Offset(c.index) + |c.bytes| <= size
                                && CheckAssetChunk(c.index, c.total, ChunkCount(size), |c.bytes|).None?
      ensures o.Stored? ==> received < total
      ensures o.Kept() ==> c.index < |old(Has())| && !old(Has())[c.index]
      ensures o.Stored? || o.Finished? ==>
                total == c.total && Has() == old(Has())[c.index := true] && pieces == old(pieces)[c.index := c.bytes]
      ensures o.Finished? || o.Rejected? ==> Count(old(Has())[c.index := true]) == c.total
      ensures o.Finished? ==> ready == Some(bytes) && genuine(bytes) && Assembled(size, bytes, pieces)
      ensures o.Rejected? ==> exists b :: !genuine(b) && Assembled(size, b, old(pieces)[c.index := c.bytes])
      ensures o.Rejected? && live ==> received == 0 && pieces == map[]
      ensures o.Duplicate? || o.Abandoned? || o.Ignored? ==> Has() == old(Has()) && received == old(received) && pieces == old(pieces)
      ensures live <==> o.Stored? || o.Duplicate? || (o.Rejected? && old(fromPeer))
      ensures !o.Finished? ==> ready == old(ready)
      ensures !o.Rejected? || !live ==> fromPeer == old(fromPeer) && peers == old(peers)
      ensures asked == old(asked) + if o.Stored? then Asks(Has()) else if o.Rejected? && live && !fromPeer then [(0, BATCH)] else []
    {
      hide Assembled, HoldsPiece, CheckAssetChunk, Asks, Count, ChunkSize;
      if !live { return Ignored; }
      assert asked + [] == asked;
      o := Judge(c);
      if o.Abandoned? { live := false; }
      if o.Stored? {
        ghost var filled := bytes;
        o := Follow();
        assert o.Rejected? ==> !genuine(filled) && Assembled(size, filled, old(pieces)[c.index := c.bytes]);
      }
    }

    method Judge(c: Chunk) returns (o: Outcome)
      requires Consistent()
      modifies this`total, this`have, this`bytes, this`received, this`pieces
      ensures Consistent() && (o.Stored? || o.Duplicate? || o.Abandoned?)
      ensures o.Stored? <==> old(Fits(c))
      ensures o.Duplicate? <==> c.index in old(pieces) && Offset(c.index) + |c.bytes| <= size
                                && CheckAssetChunk(c.index, c.total, ChunkCount(size), |c.bytes|).None?
      ensures pieces == if o.Stored? then old(pieces)[c.index := c.bytes] else old(pieces)
      ensures o.Stored? ==> c.index < |old(Has())| && !old(Has())[c.index] && Has() == old(Has())[c.index := true]
      ensures o.Stored? ==> total == c.total && received == old(received) + 1
      ensures !o.Stored? ==> received == old(received) && Has() == old(Has())
    {
      if total == 0 {
        if size == 0 || size > MAX_ASSET { return Abandoned; }
        if c.total != ChunkCount(size) { return Abandoned; }
        total := ChunkCount(size);
        have := Blank(total);
        bytes := seq(size, _ => 0);
        CountNone(total);
      }
      if CheckAssetChunk(c.index, c.total, total, |c.bytes|).Some? {
        RejectedIsWrongSize(size, c);
        return Abandoned;
      }
      ChunksTile(size, c.index);
      var offset := Offset(c.index);
      if offset + |c.bytes| > |bytes| { return Abandoned; }
      if have[c.index] { return Duplicate; }
      var want := if c.index + 1 == total then size - Offset(total - 1) else CHUNK;
      if |c.bytes| != want { return Abandoned; }
      Store(c);
      o := Stored;
    }

    method Store(c: Chunk)
      requires Consistent() && total > 0 && c.index < total && !have[c.index] && |c.bytes| == ChunkSize(size, c.index)
      modifies `have, `bytes, `received, `pieces
      ensures Consistent() && pieces == old(pieces)[c.index := c.bytes] && received == old(received) + 1
      ensures have == old(have)[c.index := true]
    {
      ChunksTile(size, c.index);
      var offset := Offset(c.index);
      ghost var before := bytes;
      bytes := bytes[..offset] + c.bytes + bytes[offset + |c.bytes|..];
      CountSet(have, c.index);
      forall i <- pieces ensures HoldsPiece(bytes, i, pieces[i]) {
        PiecesApart(size, before, bytes, i, pieces[i], c.index, c.bytes);
      }
      have := have[c.index := true];
      received := received + 1;
      pieces := pieces[c.index := c.bytes];
    }

    /** What follows a chunk that was kept. */
    method Follow() returns (o: Outcome)
      requires Consistent() && live && total > 0
      modifies this
      ensures Valid() && total == old(total)
      ensures !o.Stored? ==> Count(old(Has())) == old(total) && Assembled(size, old(bytes), old(pieces))
      ensures o == if old(received) < total then Stored else if genuine(old(bytes)) then Finished else Rejected
      ensures !o.Rejected? ==> Has() == old(Has()) && pieces == old(pieces) && bytes == old(bytes)
      ensures !o.Rejected? || !live ==> fromPeer == old(fromPeer) && peers == old(peers)
      ensures o.Rejected? && live ==> received == 0 && pieces == map[]
      ensures live <==> o.Stored? || (o.Rejected? && old(fromPeer))
      ensures ready == if o.Finished? then Some(bytes) else old(ready)
      ensures asked == old(asked) + if o.Stored? then Asks(Has()) else if o.Rejected? && live && !fromPeer then [(0, BATCH)] else []
    {
      CountFull(have);
      assert asked + [] == asked;
      if received == total {
        if genuine(bytes) {
          ready, live := Some(bytes), false;
          return Finished;
        }
        Reject();
        return Rejected;
      }
      if received % BATCH == 0 { RequestMissing(); }
      o := Stored;
    }

    /** `RequestAssetChunks`: scan for the first missing chunk. */
    method RequestMissing()
      requires Consistent() && total > 0 && received < total
      modifies `asked
      ensures asked == old(asked) + [NextAsk(have)]
    {
      var first := 0;
      while first < total && have[first]
        invariant first <= total && FirstMissing(have, 0) == FirstMissing(have, first)
      {
        first := first + 1;
      }
      CountFull(have);
      asked := asked + [(first, Min(total, first + BATCH))];
    }

    /** `RejectBytesAndRetry`: the coordinator is the last source; what came while
        a peer was being tried is thrown away. */
    method Reject()
      requires Consistent() && live && total > 0
      modifies this
      ensures Valid() && total == old(total) && live == old(fromPeer) && ready == old(ready)
      ensures if live then received == 0 && pieces == map[] else !fromPeer && peers == old(peers)
      ensures asked == old(asked) + if live && !fromPeer then [(0, BATCH)] else []
    {
      assert asked + [] == asked;
      if !fromPeer {
        live := false;
        return;
      }
      have, bytes, received, pieces := Blank(total), seq(size, _ => 0), 0, map[];
      CountNone(total);
      TryNext();
    }

    /** `TryNextPeerOrFallBack`: what is already here stays. */
    method TryNext()
      modifies `peers, `fromPeer, `asked
      ensures fromPeer == (old(peers) > 0) && peers == if fromPeer then old(peers) - 1 else old(peers)
      ensures asked == old(asked) + if fromPeer then [] else [(0, BATCH)]
    {
      assert asked + [] == asked;
      if peers == 0 {
        fromPeer, asked := false, asked + [(0, BATCH)];
      } else {
        fromPeer, peers := true, peers - 1;
      }
    }
  }

  lemma RejectedIsWrongSize(size: nat, c: Chunk)
    requires CheckAssetChunk(c.index, c.total, ChunkCount(size), |c.bytes|).Some?
    ensures !(c.total == ChunkCount(size) && c.index < c.total && |c.bytes| == ChunkSize(size, c.index))
  {
    if c.total == ChunkCount(size) && c.index < c.total {
      ChunksTile(size, c.index);
    }
  }

  /** Writing one chunk leaves every other one as it was. */
  lemma PiecesApart(size: nat, before: seq<Byte>, after: seq<Byte>, i: nat, piece: seq<Byte>, j: nat, written: seq<Byte>)
    requires i < ChunkCount(size) && j < ChunkCount(size) && i != j && |before| == size
    requires |piece| == ChunkSize(size, i) && |written| == ChunkSize(size, j) && HoldsPiece(before, i, piece)
    requires Offset(j) + |written| <= |before|
    requires after == before[..Offset(j)] + written + before[Offset(j) + |written|..]
    ensures HoldsPiece(after, i, piece)
  {
    ChunksTile(size, i);
    ChunksTile(size, j);
    var lo, hi := Offset(j), Offset(j) + |written|;
    forall p | Offset(i) <= p < Offset(i) + |piece| ensures after[p] == before[p] {
      assert i < j ==> Offset(i + 1) <= lo;
      assert j < i ==> hi <= Offset(i);
      assert p < lo || p >= hi;
    }
    assert after[Offset(i)..Offset(i) + |piece|] == before[Offset(i)..Offset(i) + |piece|];
  }

  // ---- the whole transfer ------------------------------------------------------------------------

  /** Two buffers that agree on every chunk are equal. */
  lemma SameChunksSameBytes(blob: seq<Byte>, bytes: seq<Byte>)
    requires |bytes| == |blob| && forall i :: 0 <= i < ChunkCount(|blob|) ==> HoldsPiece(bytes, i, ChunkOf(blob, i))
    ensures bytes == blob
  {
    forall p | 0 <= p < |blob| ensures bytes[p] == blob[p] {
      var i := p / CHUNK;
      assert i < ChunkCount(|blob|);
      ChunksTile(|blob|, i);
      assert HoldsPiece(bytes, i, ChunkOf(blob, i));
      var off := Offset(i);
      assert bytes[off..off + ChunkSize(|blob|, i)][p - off] == blob[off..off + ChunkSize(|blob|, i)][p - off];
    }
  }

  ghost predicate HonestPieces(pieces: map<nat, seq<Byte>>, blob: seq<Byte>) {
    forall i <- pieces :: i < ChunkCount(|blob|) && pieces[i] == ChunkOf(blob, i)
  }

  /** Pieces that fill the buffer make the asset exactly if each is the asset's. */
  lemma AssembledIffHonest(blob: seq<Byte>, bytes: seq<Byte>, pieces: map<nat, seq<Byte>>)
    requires Assembled(|blob|, bytes, pieces) && forall i <- pieces :: i < ChunkCount(|blob|)
    ensures bytes == blob <==> HonestPieces(pieces, blob)
  {
    if HonestPieces(pieces, blob) {
      SameChunksSameBytes(blob, bytes);
    }
  }

  /** The address names `blob`, and nothing else. */
  ghost predicate Names(genuine: seq<Byte> -> bool, blob: seq<Byte>) {
    forall b :: genuine(b) <==> b == blob
  }

  ghost predicate TrueChunk(c: Chunk, blob: seq<Byte>)
    requires |blob| <= MAX_ASSET
  {
    c.index < ChunkCount(|blob|) && c == Chunk(c.index, ChunkCount(|blob|), ChunkOf(blob, c.index))
  }

  ghost function Indices(chunks: seq<Chunk>): set<nat> { set c | c in chunks :: c.index as nat }

  /** No chunk of the asset is outside `came`. */
  ghost predicate AllIn(size: nat, came: set<nat>) {
    forall i <- UpTo(ChunkCount(size)) :: i in came
  }

  /** The chunks in `came` have arrived at `f`, each as the asset has it. */
  ghost predicate Fetching(f: Fetch, blob: seq<Byte>, came: set<nat>)
    reads f
  {
    f.Valid() && f.size == |blob| && Names(f.genuine, blob) && HonestPieces(f.pieces, blob)
    && f.ready == (if f.live then None else Some(blob))
    && if f.live then f.pieces.Keys == came else AllIn(|blob|, came)
  }

  /** True chunks in any order and with any repeats: each position is filled once,
      the rest of the buffer is left alone, and the fetch finishes with the asset
      exactly when every chunk has come. */
  method Deliver(f: Fetch, blob: seq<Byte>, chunks: seq<Chunk>)
    requires 0 < |blob| <= MAX_ASSET && f.live && Fetching(f, blob, f.pieces.Keys)
    requires forall c <- chunks :: TrueChunk(c, blob)
    modifies f
    ensures f.Valid() && HonestPieces(f.pieces, blob)
    ensures f.live ==> f.pieces.Keys == old(f.pieces.Keys) + Indices(chunks)
    ensures f.ready == if AllIn(|blob|, old(f.pieces.Keys) + Indices(chunks)) then Some(blob) else None
  {
    ghost var had := f.pieces.Keys;
    for k := 0 to |chunks|
      invariant Fetching(f, blob, had + Indices(chunks[..k]))
    {
      assert chunks[k] in chunks;
      OneMoreIndex(had, chunks, k);
      var _ := DeliverOne(f, blob, chunks[k], had + Indices(chunks[..k]));
    }
    assert chunks[..|chunks|] == chunks;
    if f.live {
      WaitingMisses(f, blob);
    }
  }

  lemma OneMoreIndex(had: set<nat>, chunks: seq<Chunk>, k: nat)
    requires k < |chunks|
    ensures had + Indices(chunks[..k + 1]) == had + Indices(chunks[..k]) + {chunks[k].index as nat}
  {
    assert chunks[..k + 1] == chunks[..k] + [chunks[k]];
  }

  lemma TrueChunkPasses(c: Chunk, blob: seq<Byte>)
    requires 0 < |blob| <= MAX_ASSET && TrueChunk(c, blob)
    ensures |c.bytes| == ChunkSize(|blob|, c.index) && c.total == ChunkCount(|blob|) && Offset(c.index) + |c.bytes| <= |blob|
    ensures CheckAssetChunk(c.index, c.total, ChunkCount(|blob|), |c.bytes|).None?
  {
    HonestChunkPasses(|blob|, c.index);
    ChunksTile(|blob|, c.index);
  }

  lemma AddTrueChunk(pieces: map<nat, seq<Byte>>, blob: seq<Byte>, c: Chunk)
    requires |blob| <= MAX_ASSET && TrueChunk(c, blob) && HonestPieces(pieces, blob)
    ensures HonestPieces(pieces[c.index := c.bytes], blob) && (c.index in pieces ==> pieces[c.index := c.bytes] == pieces)
  {
  }

  lemma FullIsAll(blob: seq<Byte>, bytes: seq<Byte>, pieces: map<nat, seq<Byte>>)
    requires Assembled(|blob|, bytes, pieces) && HonestPieces(pieces, blob)
    ensures bytes == blob && AllIn(|blob|, pieces.Keys)
  {
    AssembledIffHonest(blob, bytes, pieces);
  }

  /** A true chunk is kept or is a repeat, and the last one finishes the fetch. */
  method DeliverOne(f: Fetch, blob: seq<Byte>, c: Chunk, ghost came: set<nat>) returns (o: Outcome)
    requires 0 < |blob| <= MAX_ASSET && TrueChunk(c, blob) && Fetching(f, blob, came)
    modifies f
    ensures Fetching(f, blob, came + {c.index as nat})
  {
    TrueChunkPasses(c, blob);
    ghost var after := f.pieces[c.index := c.bytes];
    AddTrueChunk(f.pieces, blob, c);
    ghost var live := f.live;
    o := f.Handle(c);
    assert !live ==> o.Ignored?;
    assert live ==> o.Kept() || o.Duplicate?;
    if o.Finished? {
      FullIsAll(blob, f.bytes, after);
    }
    if o.Rejected? {
      ghost var b :| !f.genuine(b) && Assembled(f.size, b, after);
      FullIsAll(blob, b, after);
    }
  }

  /** A live fetch still misses a chunk. */
  lemma WaitingMisses(f: Fetch, blob: seq<Byte>)
    requires f.Valid() && f.live && f.size == |blob| && 0 < |blob|
    ensures !AllIn(|blob|, f.pieces.Keys)
  {
    if f.total > 0 {
      CountFull(f.have);
      var i :| 0 <= i < |f.have| && !f.have[i];
      assert UpTo(ChunkCount(|blob|))[i] == i && i !in f.pieces;
    } else {
      assert UpTo(ChunkCount(|blob|))[0] == 0 && 0 !in f.pieces;
    }
  }

  /** The count the worker watches says exactly when the asset is all there. */
  lemma FullIffWhole(f: Fetch, blob: seq<Byte>)
    requires f.Consistent() && f.size == |blob| && f.total > 0 && HonestPieces(f.pieces, blob)
    ensures f.received == f.total <==> forall i :: 0 <= i < ChunkCount(|blob|) ==> i in f.pieces
    ensures f.received == f.total ==> f.bytes == blob
  {
    CountFull(f.have);
    if f.received == f.total {
      forall i | 0 <= i < ChunkCount(|blob|) ensures HoldsPiece(f.bytes, i, ChunkOf(blob, i)) {
        assert i in f.pieces && f.pieces[i] == ChunkOf(blob, i);
      }
      SameChunksSameBytes(blob, f.bytes);
    }
  }

  /** The one request that goes unanswered: so close to the end of the 32-bit
      index range that adding a batch wraps around. No asset within the size
      limit has such chunks. */
  lemma WrappedRequestIffNothingServed(total: nat, from: Word, to: Word)
    requires from < Min(to, total)
    ensures ServedEnd(total, from, to) <= from <==> from + BATCH >= WORD_SPAN
    ensures total <= ChunkCount(MAX_ASSET) ==> ServedEnd(total, from, to) > from
  {
  }
}
