/**
 export-car on the rows a fresh run leaves: which of the blocks below the epoch root the
 command lists when the rows come from the database.
 */
module Export {
  import opened Ipld
  import opened EpochDag
  import opened Blobs
  import opened Database
  import opened Cached
  import opened Closure

  /** What the command takes from the rows. */
  function Exported(recs: seq<BlobRecord>): seq<BlobResult>
    requires forall k :: k in recs ==> Decodable(k)
  {
    seq(|recs|, i requires 0 <= i < |recs| => RebuiltResult(recs[i]))
  }

  /** Blobs that share a commitment have the same metadata block. */
  ghost predicate OneMetaEach(h: Node -> Cid, blobs: seq<BlobInput>) {
    forall a, b :: a in blobs && b in blobs && a.commitment == b.commitment ==> MetaNode(h, a) == MetaNode(h, b)
  }

  ghost predicate Lists(h: Node -> Cid, rows: seq<BlobResult>, b: BlobInput) {
    exists r :: r in rows && r.metaCid == h(MetaNode(h, b)) && r.dataCid == DataCid(h, b)
  }

  /** Every blob has a row with its own metadata. */
  ghost predicate AllListed(h: Node -> Cid, blobs: seq<BlobInput>, rows: seq<BlobResult>) {
    forall b :: b in blobs ==> Lists(h, rows, b)
  }

  // ---------------------------------------------------------------------------------
  // What the rows of a fresh run are, without the tables
  // ---------------------------------------------------------------------------------

  ghost predicate IsResult(h: Node -> Cid, blobs: seq<BlobInput>, r: BlobResult) {
    exists b :: b in blobs && r == ResultOf(h, b)
  }

  ghost predicate HasRow(rows: seq<BlobResult>, c: string) { exists r :: r in rows && r.commitment == c }

  /** One row for each commitment not in `known`, of some blob that has it. */
  ghost predicate RowPerNew(h: Node -> Cid, known: set<string>, blobs: seq<BlobInput>, rows: seq<BlobResult>) {
    && (forall r :: r in rows ==> IsResult(h, blobs, r) && r.commitment !in known)
    && (forall q, r :: q in rows && r in rows && q.commitment == r.commitment ==> q == r)
    && (forall b :: b in blobs && b.commitment !in known ==> HasRow(rows, b.commitment))
  }

  lemma RowOfRecord(h: Node -> Cid, t: Tables, network: string, inp: EpochInput, t2: Tables, recs: seq<BlobRecord>, j: nat)
    requires RowsWritten(h, t, network, inp, t2) && IsListing(t2, network, inp.epoch, recs)
    requires (forall k :: k in recs ==> Decodable(k)) && j < |recs|
    ensures IsResult(h, inp.blobs, Exported(recs)[j]) && recs[j].commitment !in t.blobs
  {
    var i := RecordOfBlob(h, t, network, inp, t2, recs, recs[j]);
    assert inp.blobs[i] in inp.blobs && Exported(recs)[j] == ResultOf(h, inp.blobs[i]);
    SelectedAfter(h, t, network, inp, t2, recs[j].commitment);
  }

  lemma RecordOfNew(h: Node -> Cid, t: Tables, network: string, inp: EpochInput, t2: Tables, recs: seq<BlobRecord>, b: BlobInput)
    requires RowsWritten(h, t, network, inp, t2) && IsListing(t2, network, inp.epoch, recs)
    requires (forall k :: k in recs ==> Decodable(k)) && b in inp.blobs && b.commitment !in t.blobs
    ensures HasRow(Exported(recs), b.commitment)
  {
    SelectedAfter(h, t, network, inp, t2, b.commitment);
    var k := BlobRecord(b.commitment, t2.blobs[b.commitment]);
    assert k in recs;
    var j :| 0 <= j < |recs| && recs[j] == k;
    assert Exported(recs)[j].commitment == b.commitment;
  }

  lemma FreshRows(h: Node -> Cid, t: Tables, network: string, inp: EpochInput, t2: Tables, recs: seq<BlobRecord>)
    requires RowsWritten(h, t, network, inp, t2) && IsListing(t2, network, inp.epoch, recs)
    requires forall k :: k in recs ==> Decodable(k)
    ensures RowPerNew(h, t.blobs.Keys, inp.blobs, Exported(recs))
  {
    var rows := Exported(recs);
    forall r | r in rows
      ensures IsResult(h, inp.blobs, r) && r.commitment !in t.blobs
    {
      var j :| 0 <= j < |rows| && r == rows[j];
      RowOfRecord(h, t, network, inp, t2, recs, j);
    }
    forall q, r | q in rows && r in rows && q.commitment == r.commitment
      ensures q == r
    {
      OneRowEach(recs, q, r);
    }
    forall b | b in inp.blobs && b.commitment !in t.blobs
      ensures HasRow(rows, b.commitment)
    {
      RecordOfNew(h, t, network, inp, t2, recs, b);
    }
  }

  lemma OneRowEach(recs: seq<BlobRecord>, q: BlobResult, r: BlobResult)
    requires forall k :: k in recs ==> Decodable(k)
    requires forall i, j :: 0 <= i < j < |recs| ==> recs[i].commitment != recs[j].commitment
    requires q in Exported(recs) && r in Exported(recs) && q.commitment == r.commitment
    ensures q == r
  {
    var i :| 0 <= i < |recs| && q == RebuiltResult(recs[i]);
    var j :| 0 <= j < |recs| && r == RebuiltResult(recs[j]);
  }

  // ---------------------------------------------------------------------------------
  // Which blobs they list
  // ---------------------------------------------------------------------------------

  /** The row that lists a blob's metadata carries its commitment. */
  lemma OwnRow(h: Node -> Cid, known: set<string>, blobs: seq<BlobInput>, rows: seq<BlobResult>, b: BlobInput)
    returns (r: BlobResult)
    requires CollisionFree(h) && RowPerNew(h, known, blobs, rows) && Lists(h, rows, b)
    ensures r in rows && r.metaCid == h(MetaNode(h, b)) && r.commitment == b.commitment && b.commitment !in known
  {
    r :| r in rows && r.metaCid == h(MetaNode(h, b)) && r.dataCid == DataCid(h, b);
    assert IsResult(h, blobs, r);
    var a :| a in blobs && r == ResultOf(h, a);
    assert MetaNode(h, a) == MetaNode(h, b);
  }

  lemma ListedIfShared(h: Node -> Cid, known: set<string>, blobs: seq<BlobInput>, rows: seq<BlobResult>, b: BlobInput)
    requires RowPerNew(h, known, blobs, rows) && OneMetaEach(h, blobs) && b in blobs && b.commitment !in known
    ensures Lists(h, rows, b)
  {
    assert HasRow(rows, b.commitment);
    var r :| r in rows && r.commitment == b.commitment;
    assert IsResult(h, blobs, r);
    var a :| a in blobs && r == ResultOf(h, a);
    assert MetaNode(h, a) == MetaNode(h, b);
  }

  /** Every blob is listed with its own blocks exactly if no commitment was stored before and
      blobs that share one share their metadata. */
  lemma AllListedIff(h: Node -> Cid, known: set<string>, blobs: seq<BlobInput>, rows: seq<BlobResult>)
    requires CollisionFree(h) && RowPerNew(h, known, blobs, rows)
    ensures AllListed(h, blobs, rows) <==> (forall b :: b in blobs ==> b.commitment !in known) && OneMetaEach(h, blobs)
  {
    if AllListed(h, blobs, rows) {
      forall b | b in blobs
        ensures b.commitment !in known
      {
        var r := OwnRow(h, known, blobs, rows, b);
      }
      forall a, b | a in blobs && b in blobs && a.commitment == b.commitment
        ensures MetaNode(h, a) == MetaNode(h, b)
      {
        var q := OwnRow(h, known, blobs, rows, a);
        var r := OwnRow(h, known, blobs, rows, b);
        assert q == r;
      }
    }
    if (forall b :: b in blobs ==> b.commitment !in known) && OneMetaEach(h, blobs) {
      forall b | b in blobs
        ensures Lists(h, rows, b)
      {
        ListedIfShared(h, known, blobs, rows, b);
      }
    }
  }

  // ---------------------------------------------------------------------------------
  // The list against what is reachable
  // ---------------------------------------------------------------------------------

  lemma MetaIsListed(h: Node -> Cid, blobs: seq<BlobInput>, root: Node, rows: seq<BlobResult>, b: BlobInput)
    requires CollisionFree(h) && root.EpochNode? && h(MetaNode(h, b)) in ExportList(h(root), rows)
    requires forall r :: r in rows ==> IsResult(h, blobs, r)
    ensures Lists(h, rows, b)
  {
    var c := h(MetaNode(h, b));
    ExportMembers(h(root), rows, c);
    var r :| r in rows && (c == r.dataCid || c == r.metaCid);
    assert IsResult(h, blobs, r);
    var a :| a in blobs && r == ResultOf(h, a);
    assert MetaNode(h, a) == MetaNode(h, b);
  }

  lemma ListedIsReached(h: Node -> Cid, blobs: seq<BlobInput>, root: Node, rows: seq<BlobResult>, c: Cid)
    requires (forall r :: r in rows ==> IsResult(h, blobs, r)) && c in ExportList(h(root), rows)
    ensures c in Everything(h, blobs, root)
  {
    ExportMembers(h(root), rows, c);
    if c != h(root) {
      var r :| r in rows && (c == r.dataCid || c == r.metaCid);
      assert IsResult(h, blobs, r);
      var a :| a in blobs && r == ResultOf(h, a);
      assert h(MetaNode(h, a)) in MetasOf(h, blobs) && DataCid(h, a) in DataSet(h, blobs);
    }
  }

  lemma ReachedIsListed(h: Node -> Cid, blobs: seq<BlobInput>, root: Node, rows: seq<BlobResult>, c: Cid)
    requires AllListed(h, blobs, rows) && c in Everything(h, blobs, root)
    ensures c in ExportList(h(root), rows)
  {
    ExportMembers(h(root), rows, c);
    if c != h(root) {
      var b :| b in blobs && (c == DataCid(h, b) || c == h(MetaNode(h, b)));
      assert Lists(h, rows, b);
    }
  }

  /** An inline epoch is listed completely exactly if every blob is. */
  lemma InlineListedIff(h: Node -> Cid, bs: Blocks, blobs: seq<BlobInput>, root: Node, rows: seq<BlobResult>, k: nat)
    requires CollisionFree(h) && 2 <= k && HoldsEpoch(h, bs, blobs, root) && Links(root) == MetasOf(h, blobs) && root.EpochNode?
    requires forall r :: r in rows ==> IsResult(h, blobs, r)
    ensures (set c | c in ExportList(h(root), rows)) == Reach(bs, h(root), k) <==> AllListed(h, blobs, rows)
  {
    InlineReach(h, bs, blobs, root, k);
    if AllListed(h, blobs, rows) {
      ListIsEverything(h, blobs, root, rows);
    }
    if (set c | c in ExportList(h(root), rows)) == Everything(h, blobs, root) {
      EverythingIsListed(h, blobs, root, rows);
    }
  }

  lemma ListIsEverything(h: Node -> Cid, blobs: seq<BlobInput>, root: Node, rows: seq<BlobResult>)
    requires AllListed(h, blobs, rows) && forall r :: r in rows ==> IsResult(h, blobs, r)
    ensures (set c | c in ExportList(h(root), rows)) == Everything(h, blobs, root)
  {
    forall c
      ensures c in ExportList(h(root), rows) <==> c in Everything(h, blobs, root)
    {
      if c in ExportList(h(root), rows) { ListedIsReached(h, blobs, root, rows, c); }
      if c in Everything(h, blobs, root) { ReachedIsListed(h, blobs, root, rows, c); }
    }
  }

  lemma EverythingIsListed(h: Node -> Cid, blobs: seq<BlobInput>, root: Node, rows: seq<BlobResult>)
    requires CollisionFree(h) && root.EpochNode? && forall r :: r in rows ==> IsResult(h, blobs, r)
    requires (set c | c in ExportList(h(root), rows)) == Everything(h, blobs, root)
    ensures AllListed(h, blobs, rows)
  {
    forall b | b in blobs
      ensures Lists(h, rows, b)
    {
      var c := h(MetaNode(h, b));
      assert c in Everything(h, blobs, root);
      assert c in set d | d in ExportList(h(root), rows);
      MetaIsListed(h, blobs, root, rows, b);
    }
  }

  /** After a fresh run export-car lists exactly what the epoch root reaches if and only if the
      index is inline (or there are no blobs), no commitment was stored before, and blobs that
      share a commitment share their metadata. */
  lemma ExportAfterFreshRun(h: Node -> Cid, t: Tables, network: string, inp: EpochInput, threshold: int, gs: seq<Group>,
                            t2: Tables, slotsPerEpoch: nat, recs: seq<BlobRecord>, bs: Blocks, root: Node, k: nat)
    requires CollisionFree(h) && 2 <= k && FreshRun(h, t, network, inp, threshold, gs, t2) && FromBeacon(inp, slotsPerEpoch)
    requires IsListing(t2, network, inp.epoch, recs)
    requires root == EpochNodeOf(h, inp, Results(h, inp.blobs), network, threshold, gs) && HoldsEpoch(h, bs, inp.blobs, root)
    ensures inp.epoch in t2.epochs && t2.epochs[inp.epoch].cid == Text(h(root))
    ensures forall r :: r in recs ==> Readable(r.row) && Decodable(r)
    ensures (set c | c in ExportList(h(root), Exported(recs))) == Reach(bs, h(root), k)
            <==> && (|inp.blobs| < threshold || inp.blobs == [])
                 && (forall b :: b in inp.blobs ==> b.commitment !in t.blobs) && OneMetaEach(h, inp.blobs)
  {
    StoredResult(h, t, network, inp, threshold, gs, t2);
    FreshRunWrites(h, t, network, inp, threshold, gs, t2);
    RowsDecode(h, t, network, inp, t2, slotsPerEpoch, recs);
    FreshRows(h, t, network, inp, t2, recs);
    RootLinks(h, inp, network, threshold, gs, root);
    if |inp.blobs| < threshold || inp.blobs == [] {
      InlineListedIff(h, bs, inp.blobs, root, Exported(recs), k);
      AllListedIff(h, t.blobs.Keys, inp.blobs, Exported(recs));
    } else {
      assert forall r :: r in Exported(recs) ==> IsResult(h, inp.blobs, r);
      var s := FirstShard(h, Entries(inp.blobs, Results(h, inp.blobs)), gs);
      ShardedExport(h, bs, inp.blobs, root, Exported(recs), k, s);
    }
  }
}
