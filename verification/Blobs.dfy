/**
 Blob nodes (builder/blob.go), the worker pool that stores them (processEpochBlobs), and
 what the staging store of an epoch build contains.
 */
module Blobs {
  import opened Common
  import opened Ipld

  /** The size rule: an explicit Size wins, zero means the length of the data. */
  function SizeOf(b: BlobInput): int { if b.size == 0 then |b.data| else b.size }

  function MetadataNode(b: BlobInput, data: Cid): Node {
    BlobMetadata(b.commitment, b.versionedHash, b.txHash, Int64(b.blockNumber), b.blockHash,
                 Int64(b.slot), Int64(b.epoch), b.index, SizeOf(b), data)
  }

  function DataCid(h: Node -> Cid, b: BlobInput): Cid { h(Raw(b.data)) }

  function MetaNode(h: Node -> Cid, b: BlobInput): Node { MetadataNode(b, DataCid(h, b)) }

  function ResultOf(h: Node -> Cid, b: BlobInput): BlobResult {
    BlobResult(b.commitment, DataCid(h, b), h(MetaNode(h, b)), |b.data|)
  }

  /** A metadata block has its blob's fields, its size and the link to its data. */
  ghost predicate DescribesBlob(n: Node, b: BlobInput, data: Cid) {
    && n.BlobMetadata?
    && n.commitment == b.commitment && n.versionedHash == b.versionedHash
    && n.txHash == b.txHash && n.blockNumber == Int64(b.blockNumber) && n.blockHash == b.blockHash
    && n.slot == Int64(b.slot) && n.epoch == Int64(b.epoch) && n.index == b.index
    && (b.size != 0 ==> n.size == b.size) && (b.size == 0 ==> n.size == |b.data|)
    && n.data == data
  }

  /** A blob's result names the blob, its length and its two blocks. */
  ghost predicate ResultFor(h: Node -> Cid, b: BlobInput, r: BlobResult) {
    && r.commitment == b.commitment && r.sizeBytes == |b.data| && r.dataCid == h(Raw(b.data))
    && exists n :: DescribesBlob(n, b, r.dataCid) && r.metaCid == h(n)
  }

  lemma ResultIs(h: Node -> Cid, b: BlobInput)
    ensures DescribesBlob(MetaNode(h, b), b, h(Raw(b.data))) && ResultFor(h, b, ResultOf(h, b))
  {
    assert DescribesBlob(MetaNode(h, b), b, h(Raw(b.data)));
  }

  method StoreRawBlob(bs: MemBlockstore, h: Node -> Cid, data: seq<Byte>) returns (c: Cid)
    modifies bs
    ensures c == h(Raw(data)) && bs.blocks == old(bs.blocks)[c := Raw(data)]
  {
    c := StoreNode(bs, h, Raw(data));
  }

  method StoreBlobMetadata(bs: MemBlockstore, h: Node -> Cid, b: BlobInput, data: Cid) returns (c: Cid)
    modifies bs
    ensures c == h(MetadataNode(b, data)) && bs.blocks == old(bs.blocks)[c := MetadataNode(b, data)]
    ensures DescribesBlob(bs.blocks[c], b, data)
  {
    var size := b.size;
    if size == 0 { size := |b.data|; }
    var n := BlobMetadata(b.commitment, b.versionedHash, b.txHash, Int64(b.blockNumber), b.blockHash,
                          Int64(b.slot), Int64(b.epoch), b.index, size, data);
    c := StoreNode(bs, h, n);
  }

  /** The raw block goes in first, so a closed store stays closed. */
  method ProcessBlob(bs: MemBlockstore, h: Node -> Cid, b: BlobInput) returns (r: BlobResult)
    requires Addressed(h, bs.blocks) && LinkClosed(bs.blocks)
    modifies bs
    ensures r == ResultOf(h, b) && ResultFor(h, b, r)
    ensures bs.blocks == old(bs.blocks)[r.dataCid := Raw(b.data)][r.metaCid := MetaNode(h, b)]
    ensures Addressed(h, bs.blocks) && LinkClosed(bs.blocks)
  {
    var d := StoreRawBlob(bs, h, b.data);
    PutKeeps(h, old(bs.blocks), Raw(b.data));
    PutKeeps(h, bs.blocks, MetaNode(h, b));
    var m := StoreBlobMetadata(bs, h, b, d);
    r := BlobResult(b.commitment, d, m, |b.data|);
    ResultIs(h, b);
  }

  // ---------------------------------------------------------------------------------
  // The blob worker pool
  // ---------------------------------------------------------------------------------

  /** How far each blob is: 0 queued, 1 raw block stored, 2 metadata stored, 3 result in its
      slot.  A schedule is a sequence of blob numbers; each occurrence takes that blob one
      stage further.  This admits every interleaving of every pool of at least one worker. */
  datatype Pool = Pool(blocks: Blocks, stage: seq<nat>, out: seq<Option<BlobResult>>)

  function StartPool(n: nat): Pool { Pool(map[], seq(n, i => 0), seq(n, i => None)) }

  predicate CanAdvance(p: Pool, i: nat) {
    |p.out| == |p.stage| && i < |p.stage| && p.stage[i] < 3
  }

  function Advance(h: Node -> Cid, blobs: seq<BlobInput>, p: Pool, i: nat): Pool
    requires CanAdvance(p, i) && |p.stage| == |blobs|
  {
    var b := blobs[i];
    var q := p.(stage := p.stage[i := p.stage[i] + 1]);
    if p.stage[i] == 0 then q.(blocks := p.blocks[DataCid(h, b) := Raw(b.data)])
    else if p.stage[i] == 1 then q.(blocks := p.blocks[h(MetaNode(h, b)) := MetaNode(h, b)])
    else q.(out := p.out[i := Some(ResultOf(h, b))])
  }

  function RunPool(h: Node -> Cid, blobs: seq<BlobInput>, p: Pool, sched: seq<nat>): Option<Pool>
    requires |p.stage| == |blobs|
    decreases |sched|
  {
    if sched == [] then Some(p)
    else if !CanAdvance(p, sched[0]) then None
    else RunPool(h, blobs, Advance(h, blobs, p, sched[0]), sched[1..])
  }

  ghost predicate PoolInv(h: Node -> Cid, blobs: seq<BlobInput>, p: Pool) {
    && |p.stage| == |blobs| == |p.out|
    && Addressed(h, p.blocks) && LinkClosed(p.blocks)
    && (forall i :: 0 <= i < |blobs| && p.stage[i] >= 1 ==> DataCid(h, blobs[i]) in p.blocks)
    && (forall i :: 0 <= i < |blobs| && p.stage[i] >= 2 ==> h(MetaNode(h, blobs[i])) in p.blocks)
    && (forall i :: 0 <= i < |blobs| ==> p.stage[i] <= 3)
    && (forall i :: 0 <= i < |blobs| ==> p.out[i] == if p.stage[i] == 3 then Some(ResultOf(h, blobs[i])) else None)
  }

  lemma AdvanceKeeps(h: Node -> Cid, blobs: seq<BlobInput>, p: Pool, i: nat)
    requires PoolInv(h, blobs, p) && CanAdvance(p, i)
    ensures PoolInv(h, blobs, Advance(h, blobs, p, i))
  {
    if p.stage[i] == 0 {
      PutKeeps(h, p.blocks, Raw(blobs[i].data));
    } else if p.stage[i] == 1 {
      PutKeeps(h, p.blocks, MetaNode(h, blobs[i]));
    }
  }

  /** Under every schedule, at every moment, each link in the staging store resolves in it. */
  lemma {:induction false} PoolAlwaysClosed(h: Node -> Cid, blobs: seq<BlobInput>, p: Pool, sched: seq<nat>)
    requires PoolInv(h, blobs, p) && RunPool(h, blobs, p, sched).Some?
    ensures PoolInv(h, blobs, RunPool(h, blobs, p, sched).value)
    decreases |sched|
  {
    if sched != [] {
      AdvanceKeeps(h, blobs, p, sched[0]);
      PoolAlwaysClosed(h, blobs, Advance(h, blobs, p, sched[0]), sched[1..]);
    }
  }

  ghost predicate Finished(p: Pool) {
    |p.out| == |p.stage| && forall i :: 0 <= i < |p.stage| ==> p.stage[i] == 3
  }

  /** Whatever the schedule, position i of the finished result list is blob i's result. */
  lemma PoolResults(h: Node -> Cid, blobs: seq<BlobInput>, sched: seq<nat>)
    requires RunPool(h, blobs, StartPool(|blobs|), sched).Some?
    requires Finished(RunPool(h, blobs, StartPool(|blobs|), sched).value)
    ensures var q := RunPool(h, blobs, StartPool(|blobs|), sched).value;
            && |q.out| == |blobs|
            && (forall i :: 0 <= i < |blobs| ==>
                  q.out[i] == Some(ResultOf(h, blobs[i])) && ResultFor(h, blobs[i], q.out[i].value))
            && Addressed(h, q.blocks) && LinkClosed(q.blocks)
            && (forall i :: 0 <= i < |blobs| ==> h(MetaNode(h, blobs[i])) in q.blocks && DataCid(h, blobs[i]) in q.blocks)
  {
    PoolAlwaysClosed(h, blobs, StartPool(|blobs|), sched);
    forall i | 0 <= i < |blobs|
      ensures ResultFor(h, blobs[i], ResultOf(h, blobs[i]))
    {
      ResultIs(h, blobs[i]);
    }
  }
}
