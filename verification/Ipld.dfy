/**
 IPLD nodes, content identifiers and the in-memory staging blockstore.

 A node's maps are order-free, as in dag-cbor, which fixes the order of map keys itself
 (section 4.2.3 of RFC 8949).  The CID of a node is h(node) for a hash h that every operation
 takes as a parameter, so that each theorem holds for every hash; the few that need distinct
 blocks to have distinct CIDs say so.
 */
module Ipld {
  import opened Common

  datatype Cid = Cid(digest: nat)

  datatype BlobIndex =
    | MapIndex(entries: map<string, seq<Cid>>)
    | HamtIndex(shardSize: nat, shards: seq<Cid>)

  datatype Node =
    | Raw(bytes: seq<Byte>)
    | BlobMetadata(commitment: string, versionedHash: string, txHash: string, blockNumber: int, blockHash: string,
                   slot: int, epoch: int, index: int, size: int, data: Cid)
    | Shard(shardEntries: map<string, seq<Cid>>)
    | EpochNode(epoch: int, slot: int, network: string, approximateSizeBytes: int, blobCount: int, blobs: BlobIndex)
    | EpochPage(epochs: map<string, Cid>)
    | NetworkRoot(network: string, pageSize: int, latestEpoch: int, totalSizeBytes: int, pages: map<string, Cid>)

  ghost predicate CollisionFree(h: Node -> Cid) {
    forall m, n :: h(m) == h(n) ==> m == n
  }

  function Listed(entries: map<string, seq<Cid>>): set<Cid> {
    set k, c | k in entries && c in entries[k] :: c
  }

  /** The CIDs a block links to. */
  function Links(n: Node): set<Cid> {
    match n
    case Raw(_) => {}
    case BlobMetadata(_, _, _, _, _, _, _, _, _, d) => {d}
    case Shard(m) => Listed(m)
    case EpochNode(_, _, _, _, _, MapIndex(m)) => Listed(m)
    case EpochNode(_, _, _, _, _, HamtIndex(_, s)) => set c | c in s
    case EpochPage(m) => set k | k in m :: m[k]
    case NetworkRoot(_, _, _, _, m) => set k | k in m :: m[k]
  }

  /** Go's int64(u): the signed 64-bit number congruent to u. */
  function Int64(u: nat): (r: int)
    ensures -TWO63 <= r < TWO63 && (u - r) % TWO64 == 0
  {
    var w := u % TWO64;
    if w < TWO63 then w else w - TWO64
  }

  /** What the beacon node (or the database) knows of one blob. */
  datatype BlobInput = BlobInput(
    commitment: string, versionedHash: string, txHash: string, blockNumber: nat, blockHash: string,
    slot: nat, epoch: nat, index: int, data: seq<Byte>, size: int)

  datatype EpochInput = EpochInput(epoch: nat, slot: nat, blobs: seq<BlobInput>)

  datatype BlobResult = BlobResult(commitment: string, dataCid: Cid, metaCid: Cid, sizeBytes: int)

  datatype EpochResult = EpochResult(epoch: nat, cid: Cid, approximateSizeBytes: int)

  type Blocks = map<Cid, Node>

  /** Each block is stored under its own CID. */
  ghost predicate Addressed(h: Node -> Cid, bs: Blocks) {
    forall c :: c in bs ==> h(bs[c]) == c
  }

  /** Every link of every stored block leads to a stored block. */
  ghost predicate LinkClosed(bs: Blocks) {
    forall c, l :: c in bs && l in Links(bs[c]) ==> l in bs
  }

  class MemBlockstore {
    var blocks: Blocks

    constructor ()
      ensures blocks == map[]
    {
      blocks := map[];
    }

    method Put(c: Cid, n: Node)
      modifies this
      ensures blocks == old(blocks)[c := n]
    {
      blocks := blocks[c := n];
    }

    /** Every stored block once, in whatever order the map yields them. */
    method All() returns (out: seq<Node>)
      ensures |out| == |blocks|
      ensures forall n :: n in out <==> exists c :: c in blocks && blocks[c] == n
    {
      out := [];
      var left := blocks.Keys;
      while left != {}
        invariant left <= blocks.Keys
        invariant |out| + |left| == |blocks|
        invariant forall n :: n in out <==> exists c :: c in blocks && c !in left && blocks[c] == n
      {
        var c :| c in left;
        out := out + [blocks[c]];
        left := left - {c};
      }
    }
  }

  /** The link system's Store: the block goes into the blockstore under its CID. */
  method StoreNode(bs: MemBlockstore, h: Node -> Cid, n: Node) returns (c: Cid)
    modifies bs
    ensures c == h(n)
    ensures bs.blocks == old(bs.blocks)[h(n) := n]
  {
    c := h(n);
    bs.Put(c, n);
  }

  /** Storing a block whose links are already there keeps the store addressed and closed. */
  lemma PutKeeps(h: Node -> Cid, bs: Blocks, n: Node)
    requires Addressed(h, bs) && LinkClosed(bs) && Links(n) <= bs.Keys
    ensures Addressed(h, bs[h(n) := n]) && LinkClosed(bs[h(n) := n])
  {}
}
