/**
 The cached path (buildEpoch with rows in the database): an epoch rebuilt from its own blob
 rows, without the beacon node and without the blob data, against the fresh build that wrote
 those rows.
 */
module Cached {
  import opened Common
  import opened Ipld
  import opened Lists
  import opened EpochDag
  import opened Blobs
  import opened Database
  import opened Beacon
  import Closure

  predicate Decodable(k: BlobRecord) { !k.row.dataCid.Junk? && !k.row.metaCid.Junk? }

  function RebuiltBlob(epoch: nat, k: BlobRecord): BlobInput
    requires Readable(k.row)
  {
    BlobInput(k.commitment, k.row.versionedHash, k.row.txHash, k.row.blockNumber, k.row.blockHash,
              k.row.slot, epoch, k.row.index, [], k.row.sizeBytes)
  }

  function RebuiltResult(k: BlobRecord): BlobResult
    requires Decodable(k)
  {
    BlobResult(k.commitment, k.row.dataCid.c, k.row.metaCid.c, k.row.sizeBytes)
  }

  /** ReconstructFromDB: fails on the first CID text that does not decode. */
  method ReconstructFromDB(epoch: nat, recs: seq<BlobRecord>, slotsPerEpoch: nat)
    returns (r: Option<(EpochInput, seq<BlobResult>)>)
    requires forall k :: k in recs ==> Readable(k.row)
    ensures r.Some? <==> forall k :: k in recs ==> Decodable(k)
    ensures r.Some? ==> IsRebuilt(epoch, recs, slotsPerEpoch, r.value.0, r.value.1)
  {
    var blobs: seq<BlobInput> := [];
    var results: seq<BlobResult> := [];
    for i := 0 to |recs|
      invariant |blobs| == |results| == i
      invariant forall j :: 0 <= j < i ==> Readable(recs[j].row) && Decodable(recs[j])
      invariant forall j :: 0 <= j < i ==> blobs[j] == RebuiltBlob(epoch, recs[j]) && results[j] == RebuiltResult(recs[j])
    {
      assert recs[i] in recs;
      if !Decodable(recs[i]) { return None; }
      blobs := blobs + [RebuiltBlob(epoch, recs[i])];
      results := results + [RebuiltResult(recs[i])];
    }
    r := Some((EpochInput(epoch, EpochToFirstSlot(epoch, slotsPerEpoch), blobs), results));
  }

  ghost predicate IsRebuilt(epoch: nat, recs: seq<BlobRecord>, slotsPerEpoch: nat, inp: EpochInput, results: seq<BlobResult>) {
    && inp.epoch == epoch && inp.slot == EpochToFirstSlot(epoch, slotsPerEpoch)
    && |inp.blobs| == |results| == |recs|
    && (forall i :: 0 <= i < |recs| ==> Readable(recs[i].row) && Decodable(recs[i]))
    && (forall i :: 0 <= i < |recs| ==> inp.blobs[i] == RebuiltBlob(epoch, recs[i]) && results[i] == RebuiltResult(recs[i]))
  }

  // ---------------------------------------------------------------------------------
  // The fresh run
  // ---------------------------------------------------------------------------------

  /** What FetchEpochInput delivers: the epoch's own blobs, Size left to the data's length,
      and integers that fit the database's signed columns. */
  ghost predicate FromBeacon(inp: EpochInput, slotsPerEpoch: nat) {
    && inp.slot == EpochToFirstSlot(inp.epoch, slotsPerEpoch)
    && (forall b :: b in inp.blobs ==> b.epoch == inp.epoch && b.size == 0 && b.slot < TWO63 && b.blockNumber < TWO63)
  }

  /** FetchEpochInput does deliver that, for epochs whose slots fit the signed columns. */
  lemma FetchedIsFromBeacon(epoch: nat, slotsPerEpoch: nat, os: seq<SlotOutcome>)
    requires 0 < slotsPerEpoch && |os| == slotsPerEpoch && epoch * slotsPerEpoch + slotsPerEpoch <= TWO63
    requires forall i :: 0 <= i < |os| && os[i].Fetched? ==> forall sc :: sc in os[i].sidecars ==> sc.blockNumber < TWO63
    ensures FromBeacon(EpochInput(epoch, EpochToFirstSlot(epoch, slotsPerEpoch), Concat(epoch, slotsPerEpoch, os)), slotsPerEpoch)
  {
    forall b | b in Concat(epoch, slotsPerEpoch, os)
      ensures b.epoch == epoch && b.size == 0 && b.slot < TWO63 && b.blockNumber < TWO63
    {
      FetchedBlobsBelong(epoch, slotsPerEpoch, os, b);
      BlobComesFromSlot(epoch, slotsPerEpoch, os, b);
    }
  }

  /** buildEpoch takes the fresh path: no blob row of this network and epoch. */
  ghost predicate NothingCached(t: Tables, network: string, epoch: nat) {
    forall c :: !Selected(t, network, epoch, c)
  }

  /** t2 is what persisting the freshly built epoch makes of t. */
  ghost predicate FreshRun(h: Node -> Cid, t: Tables, network: string, inp: EpochInput, threshold: int, gs: seq<Group>,
                           t2: Tables)
  {
    var rs := Closure.Results(h, inp.blobs);
    && NothingCached(t, network, inp.epoch)
    && IsGrouping(Entries(inp.blobs, rs), gs)
    && BlobsSaved(SavedEpoch(t, network, FreshResult(h, network, inp, threshold, gs), |rs|), network, inp.epoch,
                  inp.blobs, rs, t2)
  }

  /** What a fresh run means for the blob table. */
  ghost predicate RowsWritten(h: Node -> Cid, t: Tables, network: string, inp: EpochInput, t2: Tables) {
    && NothingCached(t, network, inp.epoch)
    && t2.blobs.Keys == t.blobs.Keys + Commitments(inp.blobs)
    && (forall c :: c in t.blobs && c !in Commitments(inp.blobs) ==> t2.blobs[c] == t.blobs[c])
    && (forall c :: c in Commitments(inp.blobs) ==>
          StagedAs(t, network, inp.epoch, inp.blobs, Closure.Results(h, inp.blobs), c, t2.blobs[c]))
  }

  lemma FreshRunWrites(h: Node -> Cid, t: Tables, network: string, inp: EpochInput, threshold: int, gs: seq<Group>, t2: Tables)
    requires FreshRun(h, t, network, inp, threshold, gs, t2)
    ensures RowsWritten(h, t, network, inp, t2)
  {
    var rs := Closure.Results(h, inp.blobs);
    var t1 := SavedEpoch(t, network, FreshResult(h, network, inp, threshold, gs), |rs|);
    forall c | c in Commitments(inp.blobs)
      ensures StagedAs(t, network, inp.epoch, inp.blobs, rs, c, t2.blobs[c])
    {
      StagedSame(t1, t, network, inp.epoch, inp.blobs, rs, c, t2.blobs[c]);
    }
  }

  lemma StagedSame(t1: Tables, t: Tables, network: string, epoch: nat, blobs: seq<BlobInput>, rs: seq<BlobResult>, c: string,
                   row: BlobRow)
    requires t1.blobs == t.blobs && StagedAs(t1, network, epoch, blobs, rs, c, row)
    ensures StagedAs(t, network, epoch, blobs, rs, c, row)
  {
    var i :| 0 <= i < |blobs| && i < |rs| && blobs[i].commitment == c
             && row == Upserted(t1, c, RowOf(network, epoch, blobs[i], rs[i]));
    assert row == Upserted(t, c, RowOf(network, epoch, blobs[i], rs[i]));
  }

  function FreshResult(h: Node -> Cid, network: string, inp: EpochInput, threshold: int, gs: seq<Group>): EpochResult {
    var rs := Closure.Results(h, inp.blobs);
    EpochResult(inp.epoch, h(EpochNodeOf(h, inp, rs, network, threshold, gs)), SumSizes(rs))
  }

  /** No two blobs share a commitment, and no commitment is stored already. */
  ghost predicate NewCommitments(t: Tables, blobs: seq<BlobInput>) {
    && (forall i, j :: 0 <= i < j < |blobs| ==> blobs[i].commitment != blobs[j].commitment)
    && (forall b :: b in blobs ==> b.commitment !in t.blobs)
  }

  /** What the epoch node takes from one blob, with the commitment that identifies it. */
  datatype Item = Item(commitment: string, entry: Entry, size: int)

  function Items(blobs: seq<BlobInput>, results: seq<BlobResult>): seq<Item>
    requires |blobs| == |results|
  {
    seq(|blobs|, i requires 0 <= i < |blobs| =>
      Item(blobs[i].commitment, Entries(blobs, results)[i], results[i].sizeBytes))
  }

  /** The row a new commitment gets is its own blob's. */
  lemma RowWritten(h: Node -> Cid, t: Tables, network: string, inp: EpochInput, t2: Tables, i: nat)
    requires RowsWritten(h, t, network, inp, t2) && NewCommitments(t, inp.blobs) && i < |inp.blobs|
    ensures Written(h, network, inp, i).commitment in t2.blobs
    ensures t2.blobs[Written(h, network, inp, i).commitment] == Written(h, network, inp, i).row
  {
    var rs := Closure.Results(h, inp.blobs);
    var c := inp.blobs[i].commitment;
    assert inp.blobs[i] in inp.blobs;
    assert c in Commitments(inp.blobs);
    var j :| 0 <= j < |inp.blobs| && j < |rs| && inp.blobs[j].commitment == c
             && t2.blobs[c] == Upserted(t, c, RowOf(network, inp.epoch, inp.blobs[j], rs[j]));
    assert j == i;
  }

  /** The rows of the epoch after the run are exactly the commitments that were new. */
  lemma SelectedAfter(h: Node -> Cid, t: Tables, network: string, inp: EpochInput, t2: Tables, c: string)
    requires RowsWritten(h, t, network, inp, t2)
    ensures Selected(t2, network, inp.epoch, c) <==> c in Commitments(inp.blobs) && c !in t.blobs
  {
    assert !Selected(t, network, inp.epoch, c);
    if c in Commitments(inp.blobs) {
      assert StagedAs(t, network, inp.epoch, inp.blobs, Closure.Results(h, inp.blobs), c, t2.blobs[c]);
    }
  }

  // ---------------------------------------------------------------------------------
  // Reading back
  // ---------------------------------------------------------------------------------

  /** A row read back is the record of one of the blobs, be the commitments new or not ... */
  lemma RecordOfBlob(h: Node -> Cid, t: Tables, network: string, inp: EpochInput, t2: Tables,
                     recs: seq<BlobRecord>, k: BlobRecord) returns (i: nat)
    requires RowsWritten(h, t, network, inp, t2) && IsListing(t2, network, inp.epoch, recs) && k in recs
    ensures i < |inp.blobs| && k == Written(h, network, inp, i)
  {
    var c, rs := k.commitment, Closure.Results(h, inp.blobs);
    SelectedAfter(h, t, network, inp, t2, c);
    assert StagedAs(t, network, inp.epoch, inp.blobs, rs, c, t2.blobs[c]);
    i :| 0 <= i < |inp.blobs| && i < |rs| && inp.blobs[i].commitment == c
         && t2.blobs[c] == Upserted(t, c, RowOf(network, inp.epoch, inp.blobs[i], rs[i]));
  }

  /** ... and every blob's record is among the rows read back. */
  lemma BlobHasRecord(h: Node -> Cid, t: Tables, network: string, inp: EpochInput, t2: Tables,
                      recs: seq<BlobRecord>, i: nat)
    requires RowsWritten(h, t, network, inp, t2) && NewCommitments(t, inp.blobs)
    requires IsListing(t2, network, inp.epoch, recs) && i < |inp.blobs|
    ensures Written(h, network, inp, i) in recs
  {
    assert inp.blobs[i] in inp.blobs;
    RowWritten(h, t, network, inp, t2, i);
    SelectedAfter(h, t, network, inp, t2, inp.blobs[i].commitment);
  }

  function Written(h: Node -> Cid, network: string, inp: EpochInput, i: nat): BlobRecord
    requires i < |inp.blobs|
  {
    BlobRecord(inp.blobs[i].commitment, RowOf(network, inp.epoch, inp.blobs[i], ResultOf(h, inp.blobs[i])))
  }

  function ItemOf(h: Node -> Cid, b: BlobInput): Item {
    Item(b.commitment, Entry(b.versionedHash, Occ(b.slot, b.index, h(MetaNode(h, b)))), |b.data|)
  }

  /** A row rebuilds to exactly what its blob contributed. */
  lemma RebuiltItem(h: Node -> Cid, network: string, inp: EpochInput, slotsPerEpoch: nat, i: nat)
    requires FromBeacon(inp, slotsPerEpoch) && i < |inp.blobs|
    ensures var k := Written(h, network, inp, i);
            && Readable(k.row) && Decodable(k)
            && Items([RebuiltBlob(inp.epoch, k)], [RebuiltResult(k)])[0] == ItemOf(h, inp.blobs[i])
  {
    assert inp.blobs[i] in inp.blobs;
  }

  lemma ItemsAt(blobs: seq<BlobInput>, results: seq<BlobResult>, i: nat)
    requires |blobs| == |results| && i < |blobs|
    ensures Items(blobs, results)[i] == Items([blobs[i]], [results[i]])[0]
  {}

  /** The rebuilt epoch has the same items as the fetched one, in some order. */
  lemma SameItems(h: Node -> Cid, t: Tables, network: string, inp: EpochInput, t2: Tables,
                  slotsPerEpoch: nat, recs: seq<BlobRecord>, inp': EpochInput, rs': seq<BlobResult>)
    requires RowsWritten(h, t, network, inp, t2) && NewCommitments(t, inp.blobs) && FromBeacon(inp, slotsPerEpoch)
    requires IsListing(t2, network, inp.epoch, recs) && IsRebuilt(inp.epoch, recs, slotsPerEpoch, inp', rs')
    ensures multiset(Items(inp'.blobs, rs')) == multiset(Items(inp.blobs, Closure.Results(h, inp.blobs)))
  {
    var a, b := Items(inp'.blobs, rs'), Items(inp.blobs, Closure.Results(h, inp.blobs));
    forall j | 0 <= j < |a|
      ensures a[j] in b
    {
      var i := RecordOfBlob(h, t, network, inp, t2, recs, recs[j]);
      RebuiltItem(h, network, inp, slotsPerEpoch, i);
      ItemsAt(inp'.blobs, rs', j);
      assert b[i] == ItemOf(h, inp.blobs[i]);
    }
    forall i | 0 <= i < |b|
      ensures b[i] in a
    {
      BlobHasRecord(h, t, network, inp, t2, recs, i);
      var j :| 0 <= j < |recs| && recs[j] == Written(h, network, inp, i);
      RebuiltItem(h, network, inp, slotsPerEpoch, i);
      ItemsAt(inp'.blobs, rs', j);
      assert a[j] == b[i];
    }
    assert NoRepeats(a) && NoRepeats(b);
    SameMembers(a, b);
  }

  lemma ItemsToParts(a: EpochInput, ra: seq<BlobResult>, b: EpochInput, rb: seq<BlobResult>)
    requires |a.blobs| == |ra| && |b.blobs| == |rb| && multiset(Items(a.blobs, ra)) == multiset(Items(b.blobs, rb))
    ensures multiset(Entries(a.blobs, ra)) == multiset(Entries(b.blobs, rb))
    ensures multiset(Sizes(ra)) == multiset(Sizes(rb))
  {
    var entry, size := (x: Item) => x.entry, (x: Item) => x.size;
    var ia, ib := Items(a.blobs, ra), Items(b.blobs, rb);
    MapPermutes(ia, ib, entry);
    MapPermutes(ia, ib, size);
    assert Map(ia, entry) == Entries(a.blobs, ra) && Map(ib, entry) == Entries(b.blobs, rb);
    assert Map(ia, size) == Sizes(ra) && Map(ib, size) == Sizes(rb);
  }

  /** The cached path agrees with the fresh one: rows written by a fresh run of new commitments
      read back and decode, and whatever order they come in and however ties are broken they
      make the same epoch node, hence the same CID, size and count. */
  lemma CachedEqualsFresh(h: Node -> Cid, t: Tables, network: string, inp: EpochInput, threshold: int, gs: seq<Group>,
                          t2: Tables, slotsPerEpoch: nat, recs: seq<BlobRecord>, inp': EpochInput, rs': seq<BlobResult>,
                          gs': seq<Group>)
    requires FreshRun(h, t, network, inp, threshold, gs, t2) && NewCommitments(t, inp.blobs) && FromBeacon(inp, slotsPerEpoch)
    requires Unambiguous(Entries(inp.blobs, Closure.Results(h, inp.blobs)))
    requires IsListing(t2, network, inp.epoch, recs) && IsRebuilt(inp.epoch, recs, slotsPerEpoch, inp', rs')
    requires IsGrouping(Entries(inp'.blobs, rs'), gs')
    ensures EpochNodeOf(h, inp', rs', network, threshold, gs')
            == EpochNodeOf(h, inp, Closure.Results(h, inp.blobs), network, threshold, gs)
    ensures |rs'| == |inp.blobs| && SumSizes(rs') == SumSizes(Closure.Results(h, inp.blobs))
  {
    var rs := Closure.Results(h, inp.blobs);
    FreshRunWrites(h, t, network, inp, threshold, gs, t2);
    SameItems(h, t, network, inp, t2, slotsPerEpoch, recs, inp', rs');
    ItemsToParts(inp', rs', inp, rs);
    SameUnambiguous(Entries(inp.blobs, rs), Entries(inp'.blobs, rs'));
    EpochNodeUnique(h, inp', rs', gs', inp, rs, gs, network, threshold);
  }

  lemma SameUnambiguous(es: seq<Entry>, fs: seq<Entry>)
    requires multiset(es) == multiset(fs) && Unambiguous(es)
    ensures Unambiguous(fs)
  {
    SameElements(es, fs);
  }

  lemma RowsDecode(h: Node -> Cid, t: Tables, network: string, inp: EpochInput, t2: Tables,
                   slotsPerEpoch: nat, recs: seq<BlobRecord>)
    requires RowsWritten(h, t, network, inp, t2) && FromBeacon(inp, slotsPerEpoch)
    requires IsListing(t2, network, inp.epoch, recs)
    ensures forall k :: k in recs ==> Readable(k.row) && Decodable(k)
  {
    forall k | k in recs
      ensures Readable(k.row) && Decodable(k)
    {
      var i := RecordOfBlob(h, t, network, inp, t2, recs, k);
      RebuiltItem(h, network, inp, slotsPerEpoch, i);
    }
  }

  /** The epoch row after a fresh run: saving the blobs leaves it alone. */
  lemma StoredResult(h: Node -> Cid, t: Tables, network: string, inp: EpochInput, threshold: int, gs: seq<Group>, t2: Tables)
    requires FreshRun(h, t, network, inp, threshold, gs, t2)
    ensures var r := FreshResult(h, network, inp, threshold, gs);
            && inp.epoch in t2.epochs && t2.epochs[inp.epoch].cid == Text(r.cid)
            && t2.epochs[inp.epoch].blobCount == |inp.blobs| && t2.epochs[inp.epoch].sizeBytes == r.approximateSizeBytes
  {}

  // ---------------------------------------------------------------------------------
  // The condition is exact
  // ---------------------------------------------------------------------------------

  lemma SubsetCardinality(a: set<string>, b: set<string>)
    requires a <= b
    ensures |a| <= |b| && (|a| == |b| <==> a == b)
  {
    assert b == a + (b - a);
    assert |b| == |a| + |b - a|;
  }

  lemma CommitmentCount(blobs: seq<BlobInput>)
    ensures |Commitments(blobs)| <= |blobs|
    ensures |Commitments(blobs)| == |blobs| <==> forall i, j :: 0 <= i < j < |blobs| ==> blobs[i].commitment != blobs[j].commitment
  {
    var cs := Map(blobs, (b: BlobInput) => b.commitment);
    Cardinality(cs);
    forall c
      ensures c in cs <==> c in Commitments(blobs)
    {
      if b :| b in blobs && b.commitment == c {
        var i :| 0 <= i < |blobs| && blobs[i] == b;
        assert cs[i] == c;
      }
    }
    assert (set c | c in cs) == Commitments(blobs);
  }

  lemma RecordCount(recs: seq<BlobRecord>, back: set<string>)
    requires forall i, j :: 0 <= i < j < |recs| ==> recs[i].commitment != recs[j].commitment
    requires forall k :: k in recs ==> k.commitment in back
    requires forall c :: c in back ==> exists k :: k in recs && k.commitment == c
    ensures |recs| == |back|
  {
    var ks := Map(recs, (k: BlobRecord) => k.commitment);
    Cardinality(ks);
    forall c
      ensures c in ks <==> c in back
    {
      if c in back {
        var k :| k in recs && k.commitment == c;
        var i :| 0 <= i < |recs| && recs[i] == k;
        assert ks[i] == c;
      }
    }
    assert (set c | c in ks) == back;
  }

  lemma RowsBack(h: Node -> Cid, t: Tables, network: string, inp: EpochInput, t2: Tables, recs: seq<BlobRecord>)
    requires RowsWritten(h, t, network, inp, t2) && IsListing(t2, network, inp.epoch, recs)
    ensures |recs| == |Commitments(inp.blobs) - t.blobs.Keys|
  {
    var back := Commitments(inp.blobs) - t.blobs.Keys;
    forall k | k in recs
      ensures k.commitment in back
    {
      SelectedAfter(h, t, network, inp, t2, k.commitment);
    }
    forall c | c in back
      ensures exists k :: k in recs && k.commitment == c
    {
      SelectedAfter(h, t, network, inp, t2, c);
      assert BlobRecord(c, t2.blobs[c]) in recs;
    }
    RecordCount(recs, back);
  }

  lemma NewIff(t: Tables, blobs: seq<BlobInput>)
    ensures Commitments(blobs) - t.blobs.Keys == Commitments(blobs) <==> forall b :: b in blobs ==> b.commitment !in t.blobs
  {
    assert forall b :: b in blobs ==> b.commitment in Commitments(blobs);
  }

  /** As many rows come back as there were blobs exactly when all commitments were new: a
      repeated one shares a row, a stored one stays with the epoch that stored it. */
  lemma AllRowsBackIff(h: Node -> Cid, t: Tables, network: string, inp: EpochInput, t2: Tables, recs: seq<BlobRecord>)
    requires RowsWritten(h, t, network, inp, t2) && IsListing(t2, network, inp.epoch, recs)
    ensures |recs| == |inp.blobs| <==> NewCommitments(t, inp.blobs)
    ensures |recs| <= |inp.blobs|
  {
    RowsBack(h, t, network, inp, t2, recs);
    NewCount(t, inp.blobs);
  }

  lemma NewCount(t: Tables, blobs: seq<BlobInput>)
    ensures var n := |Commitments(blobs) - t.blobs.Keys|; n <= |blobs| && (n == |blobs| <==> NewCommitments(t, blobs))
  {
    CommitmentCount(blobs);
    SubsetCardinality(Commitments(blobs) - t.blobs.Keys, Commitments(blobs));
    NewIff(t, blobs);
  }

  /** Rows that rebuild the fresh node came from new commitments; with the previous theorem,
      for unambiguous epochs, the two are equivalent. */
  lemma CachedEqualsFreshOnlyIf(h: Node -> Cid, t: Tables, network: string, inp: EpochInput, threshold: int, gs: seq<Group>,
                                t2: Tables, slotsPerEpoch: nat, recs: seq<BlobRecord>, inp': EpochInput,
                                rs': seq<BlobResult>, gs': seq<Group>)
    requires FreshRun(h, t, network, inp, threshold, gs, t2) && IsListing(t2, network, inp.epoch, recs)
    requires IsRebuilt(inp.epoch, recs, slotsPerEpoch, inp', rs')
    requires EpochNodeOf(h, inp', rs', network, threshold, gs')
             == EpochNodeOf(h, inp, Closure.Results(h, inp.blobs), network, threshold, gs)
    ensures NewCommitments(t, inp.blobs)
  {
    FreshRunWrites(h, t, network, inp, threshold, gs, t2);
    AllRowsBackIff(h, t, network, inp, t2, recs);
  }

  /** Saving a result over an epoch row leaves the tables alone exactly when the row has it. */
  lemma SaveAgain(t: Tables, network: string, r: EpochResult, count: int)
    requires r.epoch in t.epochs
    ensures SavedEpoch(t, network, r, count) == t
            <==> var e := t.epochs[r.epoch]; e.cid == Text(r.cid) && e.blobCount == count && e.sizeBytes == r.approximateSizeBytes
  {
    var t' := SavedEpoch(t, network, r, count);
    if t'.epochs[r.epoch] == t.epochs[r.epoch] {
      assert t'.epochs == t.epochs;
    }
  }

  // ---------------------------------------------------------------------------------
  // Processing the epoch again
  // ---------------------------------------------------------------------------------

  /** The epoch result rebuilt from rows. */
  function RebuiltEpoch(h: Node -> Cid, network: string, inp: EpochInput, rs: seq<BlobResult>, threshold: int,
                        gs: seq<Group>): EpochResult
  {
    EpochResult(inp.epoch, h(EpochNodeOf(h, inp, rs, network, threshold, gs)), SumSizes(rs))
  }

  /** The cached path saves the rebuilt epoch and no blobs. */
  ghost predicate CachedRun(h: Node -> Cid, t: Tables, network: string, epoch: nat, threshold: int, slotsPerEpoch: nat,
                            recs: seq<BlobRecord>, inp: EpochInput, rs: seq<BlobResult>, gs: seq<Group>, t': Tables)
  {
    && IsRebuilt(epoch, recs, slotsPerEpoch, inp, rs) && IsGrouping(Entries(inp.blobs, rs), gs)
    && t' == SavedEpoch(t, network, RebuiltEpoch(h, network, inp, rs, threshold, gs), |rs|)
  }

  /** Processing an epoch on tables t: from its rows if it has any, from the beacon node's inp
      otherwise. */
  ghost predicate Run(h: Node -> Cid, t: Tables, network: string, inp: EpochInput, threshold: int, slotsPerEpoch: nat,
                      recs: seq<BlobRecord>, t': Tables)
  {
    && IsListing(t, network, inp.epoch, recs)
    && if recs != []
       then exists inp', rs', gs' :: CachedRun(h, t, network, inp.epoch, threshold, slotsPerEpoch, recs, inp', rs', gs', t')
       else exists gs :: FreshRun(h, t, network, inp, threshold, gs, t')
  }

  /** Some row came back to the epoch exactly if some commitment was new. */
  lemma SomeRowBack(h: Node -> Cid, t: Tables, network: string, inp: EpochInput, t2: Tables, recs: seq<BlobRecord>)
    requires RowsWritten(h, t, network, inp, t2) && IsListing(t2, network, inp.epoch, recs)
    ensures recs != [] <==> exists b :: b in inp.blobs && b.commitment !in t.blobs
  {
    if recs != [] {
      assert recs[0] in recs;
      SelectedAfter(h, t, network, inp, t2, recs[0].commitment);
    }
    if b :| b in inp.blobs && b.commitment !in t.blobs {
      SelectedAfter(h, t, network, inp, t2, b.commitment);
      assert BlobRecord(b.commitment, t2.blobs[b.commitment]) in recs;
    }
  }

  lemma CachedRunChangesNothing(h: Node -> Cid, t: Tables, network: string, inp: EpochInput, threshold: int,
                                gs: seq<Group>, t2: Tables, slotsPerEpoch: nat, recs: seq<BlobRecord>, inp': EpochInput,
                                rs': seq<BlobResult>, gs': seq<Group>, t3: Tables)
    requires FreshRun(h, t, network, inp, threshold, gs, t2) && FromBeacon(inp, slotsPerEpoch)
    requires Unambiguous(Entries(inp.blobs, Closure.Results(h, inp.blobs)))
    requires IsListing(t2, network, inp.epoch, recs)
    requires CachedRun(h, t2, network, inp.epoch, threshold, slotsPerEpoch, recs, inp', rs', gs', t3)
    ensures t3 == t2 <==> NewCommitments(t, inp.blobs)
  {
    StoredResult(h, t, network, inp, threshold, gs, t2);
    SaveAgain(t2, network, RebuiltEpoch(h, network, inp', rs', threshold, gs'), |rs'|);
    if NewCommitments(t, inp.blobs) {
      CachedEqualsFresh(h, t, network, inp, threshold, gs, t2, slotsPerEpoch, recs, inp', rs', gs');
    } else {
      FreshRunWrites(h, t, network, inp, threshold, gs, t2);
      AllRowsBackIff(h, t, network, inp, t2, recs);
    }
  }

  /** The columns a conflict on the commitment overwrites. */
  datatype Columns = Columns(dataCid: CidText, metaCid: CidText, versionedHash: string, txHash: string, blockNumber: int,
                             blockHash: string)

  function ColumnsOf(r: BlobRow): Columns {
    Columns(r.dataCid, r.metaCid, r.versionedHash, r.txHash, r.blockNumber, r.blockHash)
  }

  function BlobColumns(h: Node -> Cid, network: string, inp: EpochInput, i: nat): Columns
    requires i < |inp.blobs|
  {
    ColumnsOf(RowOf(network, inp.epoch, inp.blobs[i], ResultOf(h, inp.blobs[i])))
  }

  /** Blobs that share a commitment write the same columns. */
  ghost predicate SameColumns(h: Node -> Cid, network: string, inp: EpochInput) {
    forall i, j :: 0 <= i < |inp.blobs| && 0 <= j < |inp.blobs| && inp.blobs[i].commitment == inp.blobs[j].commitment ==>
      BlobColumns(h, network, inp, i) == BlobColumns(h, network, inp, j)
  }

  /** A row that is already there after a run has the columns of a blob of its commitment. */
  lemma WriterOf(h: Node -> Cid, t: Tables, network: string, inp: EpochInput, t2: Tables, c: string) returns (i: nat)
    requires RowsWritten(h, t, network, inp, t2) && c in Commitments(inp.blobs)
    ensures i < |inp.blobs| && inp.blobs[i].commitment == c && ColumnsOf(t2.blobs[c]) == BlobColumns(h, network, inp, i)
  {
    var rs := Closure.Results(h, inp.blobs);
    assert StagedAs(t, network, inp.epoch, inp.blobs, rs, c, t2.blobs[c]);
    i :| 0 <= i < |inp.blobs| && i < |rs| && inp.blobs[i].commitment == c
         && t2.blobs[c] == Upserted(t, c, RowOf(network, inp.epoch, inp.blobs[i], rs[i]));
  }

  /** Upserting over a stored row leaves it alone exactly when it has the columns already. */
  lemma UpsertAgain(t: Tables, c: string, row: BlobRow)
    requires c in t.blobs
    ensures Upserted(t, c, row) == t.blobs[c] <==> ColumnsOf(row) == ColumnsOf(t.blobs[c])
    ensures ColumnsOf(Upserted(t, c, row)) == ColumnsOf(row)
  {}

  /** Fetching the epoch a second time writes the same epoch row. */
  lemma RefetchedEpoch(h: Node -> Cid, t: Tables, network: string, inp: EpochInput, threshold: int, gs: seq<Group>,
                       t2: Tables, gs': seq<Group>, t3: Tables)
    requires FreshRun(h, t, network, inp, threshold, gs, t2) && FreshRun(h, t2, network, inp, threshold, gs', t3)
    requires Unambiguous(Entries(inp.blobs, Closure.Results(h, inp.blobs)))
    ensures t3.epochs == t2.epochs
  {
    var rs := Closure.Results(h, inp.blobs);
    EpochNodeUnique(h, inp, rs, gs', inp, rs, gs, network, threshold);
    StoredResult(h, t, network, inp, threshold, gs, t2);
    SaveAgain(t2, network, FreshResult(h, network, inp, threshold, gs'), |rs|);
  }

  lemma StagedOver(t: Tables, network: string, epoch: nat, blobs: seq<BlobInput>, rs: seq<BlobResult>, c: string, row: BlobRow)
    requires c in t.blobs && StagedAs(t, network, epoch, blobs, rs, c, row)
    ensures row == t.blobs[c] <==> ColumnsOf(row) == ColumnsOf(t.blobs[c])
  {
    var i :| 0 <= i < |blobs| && i < |rs| && blobs[i].commitment == c
             && row == Upserted(t, c, RowOf(network, epoch, blobs[i], rs[i]));
    UpsertAgain(t, c, RowOf(network, epoch, blobs[i], rs[i]));
  }

  lemma RefetchedBlob(h: Node -> Cid, t: Tables, network: string, inp: EpochInput, t2: Tables, t3: Tables, c: string)
    requires RowsWritten(h, t, network, inp, t2) && RowsWritten(h, t2, network, inp, t3) && SameColumns(h, network, inp)
    requires c in Commitments(inp.blobs)
    ensures t3.blobs[c] == t2.blobs[c]
  {
    var i := WriterOf(h, t, network, inp, t2, c);
    var j := WriterOf(h, t2, network, inp, t3, c);
    assert BlobColumns(h, network, inp, i) == BlobColumns(h, network, inp, j);
    StagedOver(t2, network, inp.epoch, inp.blobs, Closure.Results(h, inp.blobs), c, t3.blobs[c]);
  }

  lemma RefetchedBlobs(h: Node -> Cid, t: Tables, network: string, inp: EpochInput, t2: Tables, t3: Tables)
    requires RowsWritten(h, t, network, inp, t2) && RowsWritten(h, t2, network, inp, t3) && SameColumns(h, network, inp)
    ensures t3.blobs == t2.blobs
  {
    assert t3.blobs.Keys == t2.blobs.Keys;
    forall c | c in t2.blobs
      ensures t3.blobs[c] == t2.blobs[c]
    {
      RefetchedKey(h, t, network, inp, t2, t3, c);
    }
  }

  lemma RefetchedKey(h: Node -> Cid, t: Tables, network: string, inp: EpochInput, t2: Tables, t3: Tables, c: string)
    requires RowsWritten(h, t, network, inp, t2) && RowsWritten(h, t2, network, inp, t3) && SameColumns(h, network, inp)
    requires c in t2.blobs
    ensures c in t3.blobs && t3.blobs[c] == t2.blobs[c]
  {
    if c in Commitments(inp.blobs) { RefetchedBlob(h, t, network, inp, t2, t3, c); }
  }

  /** After a run the same blobs could be saved again with blob k's row for its commitment. */
  lemma Restaged(h: Node -> Cid, t: Tables, network: string, inp: EpochInput, t2: Tables, k: nat)
    requires RowsWritten(h, t, network, inp, t2) && k < |inp.blobs| && inp.epoch in t2.epochs
    ensures var c := inp.blobs[k].commitment;
            var row := Upserted(t2, c, RowOf(network, inp.epoch, inp.blobs[k], ResultOf(h, inp.blobs[k])));
            BlobsSaved(t2, network, inp.epoch, inp.blobs, Closure.Results(h, inp.blobs), t2.(blobs := t2.blobs[c := row]))
  {
    var rs := Closure.Results(h, inp.blobs);
    var c := inp.blobs[k].commitment;
    var row := Upserted(t2, c, RowOf(network, inp.epoch, inp.blobs[k], rs[k]));
    assert inp.blobs[k] in inp.blobs;
    assert StagedAs(t2, network, inp.epoch, inp.blobs, rs, c, row);
    forall b | b in Commitments(inp.blobs)
      ensures StagedAs(t2, network, inp.epoch, inp.blobs, rs, b, t2.blobs[b])
    {
      StagedAgain(h, t, network, inp, t2, b);
    }
    SavedOver(t2, network, inp.epoch, inp.blobs, rs, c, row);
  }

  lemma SavedOver(t: Tables, network: string, epoch: nat, blobs: seq<BlobInput>, rs: seq<BlobResult>, c: string, row: BlobRow)
    requires epoch in t.epochs && blobs != [] && c in Commitments(blobs) && Commitments(blobs) <= t.blobs.Keys
    requires StagedAs(t, network, epoch, blobs, rs, c, row)
    requires forall b :: b in Commitments(blobs) ==> StagedAs(t, network, epoch, blobs, rs, b, t.blobs[b])
    ensures BlobsSaved(t, network, epoch, blobs, rs, t.(blobs := t.blobs[c := row]))
  {
    assert t.blobs[c := row].Keys == t.blobs.Keys;
  }

  /** If two blobs of a commitment differ, one of them differs from what is stored. */
  lemma Differing(h: Node -> Cid, network: string, inp: EpochInput, t2: Tables) returns (k: nat)
    requires !SameColumns(h, network, inp) && Commitments(inp.blobs) <= t2.blobs.Keys
    ensures k < |inp.blobs| && inp.blobs[k].commitment in t2.blobs
    ensures ColumnsOf(t2.blobs[inp.blobs[k].commitment]) != BlobColumns(h, network, inp, k)
  {
    var i, j :| 0 <= i < |inp.blobs| && 0 <= j < |inp.blobs| && inp.blobs[i].commitment == inp.blobs[j].commitment
                && BlobColumns(h, network, inp, i) != BlobColumns(h, network, inp, j);
    assert inp.blobs[i] in inp.blobs;
    k := if ColumnsOf(t2.blobs[inp.blobs[i].commitment]) == BlobColumns(h, network, inp, i) then j else i;
  }

  /** Then the second run may store that one. */
  lemma OtherRefetch(h: Node -> Cid, t: Tables, network: string, inp: EpochInput, threshold: int, gs: seq<Group>,
                     t2: Tables) returns (t3: Tables)
    requires FreshRun(h, t, network, inp, threshold, gs, t2) && NothingCached(t2, network, inp.epoch)
    requires !SameColumns(h, network, inp)
    ensures FreshRun(h, t2, network, inp, threshold, gs, t3) && t3 != t2
  {
    FreshRunWrites(h, t, network, inp, threshold, gs, t2);
    StoredResult(h, t, network, inp, threshold, gs, t2);
    SaveAgain(t2, network, FreshResult(h, network, inp, threshold, gs), |inp.blobs|);
    var k := Differing(h, network, inp, t2);
    var c, row := inp.blobs[k].commitment, RowOf(network, inp.epoch, inp.blobs[k], ResultOf(h, inp.blobs[k]));
    UpsertAgain(t2, c, row);
    Restaged(h, t, network, inp, t2, k);
    t3 := t2.(blobs := t2.blobs[c := Upserted(t2, c, row)]);
    assert t3.blobs[c] != t2.blobs[c];
  }

  /** The row a run wrote is one it could write again. */
  lemma StagedAgain(h: Node -> Cid, t: Tables, network: string, inp: EpochInput, t2: Tables, c: string)
    requires RowsWritten(h, t, network, inp, t2) && c in Commitments(inp.blobs)
    ensures StagedAs(t2, network, inp.epoch, inp.blobs, Closure.Results(h, inp.blobs), c, t2.blobs[c])
  {
    var rs := Closure.Results(h, inp.blobs);
    var i := WriterOf(h, t, network, inp, t2, c);
    UpsertAgain(t2, c, RowOf(network, inp.epoch, inp.blobs[i], rs[i]));
  }

  lemma RefetchChangesNothingIff(h: Node -> Cid, t: Tables, network: string, inp: EpochInput, threshold: int, gs: seq<Group>,
                                 t2: Tables)
    requires FreshRun(h, t, network, inp, threshold, gs, t2) && NothingCached(t2, network, inp.epoch)
    requires Unambiguous(Entries(inp.blobs, Closure.Results(h, inp.blobs)))
    ensures (forall gs', t3 :: FreshRun(h, t2, network, inp, threshold, gs', t3) ==> t3 == t2) <==> SameColumns(h, network, inp)
  {
    if SameColumns(h, network, inp) {
      forall gs', t3 | FreshRun(h, t2, network, inp, threshold, gs', t3)
        ensures t3 == t2
      {
        FreshRunWrites(h, t, network, inp, threshold, gs, t2);
        FreshRunWrites(h, t2, network, inp, threshold, gs', t3);
        RefetchedEpoch(h, t, network, inp, threshold, gs, t2, gs', t3);
        RefetchedBlobs(h, t, network, inp, t2, t3);
      }
    } else {
      var t3 := OtherRefetch(h, t, network, inp, threshold, gs, t2);
    }
  }

  /** Processing an epoch again after a fresh run.  If some commitment was new, the second run
      takes the cached path and leaves the tables as they are if and only if all were.  If none
      was, no row came back and the epoch is fetched again: that leaves the tables as they are in
      any case if and only if blobs that share a commitment write the same columns. */
  lemma SecondRunChangesNothing(h: Node -> Cid, t: Tables, network: string, inp: EpochInput, threshold: int, gs: seq<Group>,
                                t2: Tables, slotsPerEpoch: nat, recs: seq<BlobRecord>)
    requires FreshRun(h, t, network, inp, threshold, gs, t2) && FromBeacon(inp, slotsPerEpoch)
    requires Unambiguous(Entries(inp.blobs, Closure.Results(h, inp.blobs))) && IsListing(t2, network, inp.epoch, recs)
    ensures recs != [] <==> exists b :: b in inp.blobs && b.commitment !in t.blobs
    ensures recs != [] ==> forall t3 :: Run(h, t2, network, inp, threshold, slotsPerEpoch, recs, t3) ==>
                             (t3 == t2 <==> NewCommitments(t, inp.blobs))
    ensures recs == [] ==> ((forall t3 :: Run(h, t2, network, inp, threshold, slotsPerEpoch, recs, t3) ==> t3 == t2)
                            <==> SameColumns(h, network, inp))
  {
    FreshRunWrites(h, t, network, inp, threshold, gs, t2);
    SomeRowBack(h, t, network, inp, t2, recs);
    if recs != [] {
      forall t3 | Run(h, t2, network, inp, threshold, slotsPerEpoch, recs, t3)
        ensures t3 == t2 <==> NewCommitments(t, inp.blobs)
      {
        var inp', rs', gs' :|
          CachedRun(h, t2, network, inp.epoch, threshold, slotsPerEpoch, recs, inp', rs', gs', t3);
        CachedRunChangesNothing(h, t, network, inp, threshold, gs, t2, slotsPerEpoch, recs, inp', rs', gs', t3);
      }
    } else {
      NothingListed(t2, network, inp.epoch);
      RefetchChangesNothingIff(h, t, network, inp, threshold, gs, t2);
      if forall t3 :: Run(h, t2, network, inp, threshold, slotsPerEpoch, recs, t3) ==> t3 == t2 {
        forall gs', t3 | FreshRun(h, t2, network, inp, threshold, gs', t3)
          ensures t3 == t2
        {
          assert Run(h, t2, network, inp, threshold, slotsPerEpoch, recs, t3);
        }
      }
    }
  }

  lemma NothingListed(t: Tables, network: string, epoch: nat)
    requires IsListing(t, network, epoch, [])
    ensures NothingCached(t, network, epoch)
  {
    var none: seq<BlobRecord> := [];
    forall c | c in t.blobs
      ensures !Selected(t, network, epoch, c)
    {
      assert BlobRecord(c, t.blobs[c]) !in none;
    }
  }
}
