/**
 The relational store (db/db.go): epoch rows keyed by epoch number alone, blob rows keyed by
 KZG commitment alone, upserts that update only some columns, and the rows read back.
 */
module Database {
  import opened Ipld
  import opened Lists

  /** A CID column: the canonical text, another text that decodes to the same CID, or text
      that does not decode - such as the empty string of a placeholder row. */
  datatype CidText = Canonical(c: Cid) | Alias(c: Cid, form: nat) | Junk(text: string)

  function Text(c: Cid): CidText { Canonical(c) }

  datatype EpochRow = EpochRow(network: string, slot: int, cid: CidText, blobCount: int, sizeBytes: int)

  datatype BlobRow = BlobRow(
    epoch: nat, slot: int, network: string, index: int, dataCid: CidText, metaCid: CidText,
    versionedHash: string, txHash: string, blockNumber: int, blockHash: string, sizeBytes: int)

  datatype Tables = Tables(epochs: map<nat, EpochRow>, blobs: map<string, BlobRow>)

  // ---------------------------------------------------------------------------------
  // Writes
  // ---------------------------------------------------------------------------------

  /** A conflict on the epoch number leaves network and slot as they were. */
  function SavedEpoch(t: Tables, network: string, r: EpochResult, count: int): Tables {
    var e := r.epoch;
    t.(epochs := t.epochs[e :=
      if e in t.epochs
      then t.epochs[e].(cid := Text(r.cid), blobCount := count, sizeBytes := r.approximateSizeBytes)
      else EpochRow(network, e * 32, Text(r.cid), count, r.approximateSizeBytes)])
  }

  predicate Exists(t: Tables, network: string, e: nat) { e in t.epochs && t.epochs[e].network == network }

  function RowOf(network: string, epoch: nat, b: BlobInput, r: BlobResult): BlobRow {
    BlobRow(epoch, Int64(b.slot), network, b.index, Text(r.dataCid), Text(r.metaCid),
            b.versionedHash, b.txHash, Int64(b.blockNumber), b.blockHash, r.sizeBytes)
  }

  /** A conflict on the commitment leaves epoch, slot, network, index and size as they were. */
  function Upserted(t: Tables, c: string, row: BlobRow): BlobRow {
    if c in t.blobs
    then t.blobs[c].(dataCid := row.dataCid, metaCid := row.metaCid, versionedHash := row.versionedHash,
                     txHash := row.txHash, blockNumber := row.blockNumber, blockHash := row.blockHash)
    else row
  }

  function WithPlaceholder(t: Tables, network: string, epoch: nat): map<nat, EpochRow> {
    if epoch in t.epochs then t.epochs
    else t.epochs[epoch := EpochRow(network, epoch * 32, Junk(""), 0, 0)]
  }

  function Commitments(blobs: seq<BlobInput>): set<string> { set b | b in blobs :: b.commitment }

  /** SELECT DISTINCT ON (commitment): for each commitment some staged row that has it. */
  ghost predicate StagedAs(t: Tables, network: string, epoch: nat, blobs: seq<BlobInput>, results: seq<BlobResult>,
                           c: string, row: BlobRow)
  {
    exists i :: 0 <= i < |blobs| && i < |results| && blobs[i].commitment == c
                && row == Upserted(t, c, RowOf(network, epoch, blobs[i], results[i]))
  }

  ghost predicate BlobsSaved(t: Tables, network: string, epoch: nat, blobs: seq<BlobInput>, results: seq<BlobResult>,
                             t': Tables)
  {
    if blobs == [] then t' == t
    else
      && t'.epochs == WithPlaceholder(t, network, epoch)
      && t'.blobs.Keys == t.blobs.Keys + Commitments(blobs)
      && (forall c :: c in t.blobs && c !in Commitments(blobs) ==> t'.blobs[c] == t.blobs[c])
      && (forall c :: c in Commitments(blobs) ==> StagedAs(t, network, epoch, blobs, results, c, t'.blobs[c]))
  }

  // ---------------------------------------------------------------------------------
  // Reads
  // ---------------------------------------------------------------------------------

  datatype BlobRecord = BlobRecord(commitment: string, row: BlobRow)

  predicate Readable(r: BlobRow) { 0 <= r.slot && 0 <= r.blockNumber }

  predicate RecordLeq(a: BlobRecord, b: BlobRecord) { a.row.index <= b.row.index }

  predicate Selected(t: Tables, network: string, epoch: nat, c: string) {
    c in t.blobs && t.blobs[c].network == network && t.blobs[c].epoch == epoch
  }

  /** Rows of one epoch ordered by blob_index, ties in any order. */
  ghost predicate IsListing(t: Tables, network: string, epoch: nat, recs: seq<BlobRecord>) {
    && SortedBy(recs, RecordLeq)
    && (forall i, j :: 0 <= i < j < |recs| ==> recs[i].commitment != recs[j].commitment)
    && (forall k :: k in recs <==> Selected(t, network, epoch, k.commitment) && k.row == t.blobs[k.commitment])
  }

  datatype EpochRecord = EpochRecord(epoch: nat, cid: CidText, sizeBytes: int)

  predicate EpochLeq(a: EpochRecord, b: EpochRecord) { a.epoch <= b.epoch }

  function RecordOf(t: Tables, e: nat): EpochRecord
    requires e in t.epochs
  {
    EpochRecord(e, t.epochs[e].cid, t.epochs[e].sizeBytes)
  }

  /** The epochs of one network, ascending. */
  ghost predicate IsEpochListing(t: Tables, network: string, es: seq<EpochRecord>) {
    && (forall i, j :: 0 <= i < j < |es| ==> es[i].epoch < es[j].epoch)
    && (forall r :: r in es <==> Exists(t, network, r.epoch) && r == RecordOf(t, r.epoch))
  }

  class Client {
    var epochs: map<nat, EpochRow>
    var blobs: map<string, BlobRow>

    ghost function Contents(): Tables
      reads this
    {
      Tables(epochs, blobs)
    }

    constructor ()
      ensures Contents() == Tables(map[], map[])
    {
      epochs, blobs := map[], map[];
    }

    method SaveEpoch(network: string, r: EpochResult, count: int)
      modifies this
      ensures Contents() == SavedEpoch(old(Contents()), network, r, count)
    {
      if r.epoch in epochs {
        epochs := epochs[r.epoch := epochs[r.epoch].(cid := Text(r.cid), blobCount := count, sizeBytes := r.approximateSizeBytes)];
      } else {
        epochs := epochs[r.epoch := EpochRow(network, r.epoch * 32, Text(r.cid), count, r.approximateSizeBytes)];
      }
    }

    /** One transaction; a length mismatch is an error and changes nothing. */
    method SaveBlobs(network: string, epoch: nat, bs: seq<BlobInput>, results: seq<BlobResult>) returns (ok: bool)
      modifies this
      ensures ok <==> |bs| == |results|
      ensures ok ==> BlobsSaved(old(Contents()), network, epoch, bs, results, Contents())
      ensures !ok ==> Contents() == old(Contents())
    {
      if |bs| != |results| { return false; }
      if bs == [] { return true; }
      ghost var t := Contents();
      if epoch !in epochs {
        epochs := epochs[epoch := EpochRow(network, epoch * 32, Junk(""), 0, 0)];
      }
      blobs := UpsertAll(t, blobs, network, epoch, bs, results);
      return true;
    }

    method EpochExists(network: string, e: nat) returns (r: bool)
      ensures r <==> Exists(Contents(), network, e)
    {
      r := e in epochs && epochs[e].network == network;
    }

    /** All epochs saved for a network. */
    method GetAllEpochs(network: string) returns (es: seq<EpochRecord>)
      ensures IsEpochListing(Contents(), network, es)
    {
      var us: seq<EpochRecord> := [];
      var left := epochs.Keys;
      while left != {}
        invariant left <= epochs.Keys
        invariant forall i, j :: 0 <= i < j < |us| ==> us[i].epoch != us[j].epoch
        invariant forall r :: r in us <==>
                    r.epoch !in left && Exists(Contents(), network, r.epoch) && r == RecordOf(Contents(), r.epoch)
        decreases |left|
      {
        var e :| e in left;
        if epochs[e].network == network {
          assert forall i :: 0 <= i < |us| ==> us[i] in us;
          us := us + [EpochRecord(e, epochs[e].cid, epochs[e].sizeBytes)];
        }
        left := left - {e};
      }
      es := SortEpochs(us);
    }

    /** The rows of an epoch.  Slot and block number are read into unsigned integers, so a
        negative one is an error. */
    method GetBlobsByEpoch(network: string, epoch: nat) returns (ok: bool, recs: seq<BlobRecord>)
      ensures IsListing(Contents(), network, epoch, recs)
      ensures forall i, j :: 0 <= i < j < |recs| ==> recs[i].row.index <= recs[j].row.index
      ensures forall c, row :: BlobRecord(c, row) in recs <==>
                c in blobs && row == blobs[c] && row.network == network && row.epoch == epoch
      ensures ok <==> forall k :: k in recs ==> Readable(k.row)
    {
      var us: seq<BlobRecord> := [];
      var left := blobs.Keys;
      while left != {}
        invariant left <= blobs.Keys
        invariant forall i, j :: 0 <= i < j < |us| ==> us[i].commitment != us[j].commitment
        invariant forall k :: k in us <==>
                    k.commitment in blobs && k.commitment !in left
                    && blobs[k.commitment].network == network && blobs[k.commitment].epoch == epoch
                    && k.row == blobs[k.commitment]
        decreases |left|
      {
        var c :| c in left;
        if blobs[c].network == network && blobs[c].epoch == epoch {
          assert forall i :: 0 <= i < |us| ==> us[i] in us;
          us := us + [BlobRecord(c, blobs[c])];
        }
        left := left - {c};
      }
      recs := SortRecords(us);
      assert forall i, j :: 0 <= i < j < |recs| ==> RecordLeq(recs[i], recs[j]);
      ok := forall k :: k in recs ==> Readable(k.row);
    }
  }

  /** Commitments in `done` have been upserted into m, the others are as in t. */
  ghost predicate Merged(t: Tables, network: string, epoch: nat, bs: seq<BlobInput>, results: seq<BlobResult>,
                         done: set<string>, m: map<string, BlobRow>)
  {
    && m.Keys == t.blobs.Keys + done
    && (forall c :: c in t.blobs && c !in done ==> m[c] == t.blobs[c])
    && (forall c :: c in done ==> StagedAs(t, network, epoch, bs, results, c, m[c]))
  }

  /** INSERT ... SELECT DISTINCT ON ... ON CONFLICT DO UPDATE: of the staged rows that share a
      commitment any one may be the row taken. */
  method UpsertAll(ghost t: Tables, before: map<string, BlobRow>, network: string, epoch: nat, bs: seq<BlobInput>,
                   results: seq<BlobResult>)
    returns (m: map<string, BlobRow>)
    requires before == t.blobs && |bs| == |results|
    ensures Merged(t, network, epoch, bs, results, Commitments(bs), m)
  {
    m := before;
    var seen: set<string> := {};
    for i := 0 to |bs|
      invariant seen == Commitments(bs[..i])
      invariant Merged(t, network, epoch, bs, results, seen, m)
    {
      var c := bs[i].commitment;
      CommitmentsNext(bs, i);
      var take := *;
      if c !in seen || take {
        var row := RowOf(network, epoch, bs[i], results[i]);
        if c in before {
          row := before[c].(dataCid := row.dataCid, metaCid := row.metaCid, versionedHash := row.versionedHash,
                            txHash := row.txHash, blockNumber := row.blockNumber, blockHash := row.blockHash);
        }
        MergedNext(t, network, epoch, bs, results, seen, m, i, row);
        m := m[c := row];
      }
      seen := seen + {c};
    }
    assert bs[..|bs|] == bs;
  }

  lemma CommitmentsNext(bs: seq<BlobInput>, i: nat)
    requires i < |bs|
    ensures Commitments(bs[..i + 1]) == Commitments(bs[..i]) + {bs[i].commitment}
  {
    assert bs[..i + 1] == bs[..i] + [bs[i]];
    assert bs[i] in bs[..i + 1];
  }

  lemma MergedNext(t: Tables, network: string, epoch: nat, bs: seq<BlobInput>, results: seq<BlobResult>,
                   done: set<string>, m: map<string, BlobRow>, i: nat, row: BlobRow)
    requires Merged(t, network, epoch, bs, results, done, m) && i < |bs| == |results|
    requires row == Upserted(t, bs[i].commitment, RowOf(network, epoch, bs[i], results[i]))
    ensures Merged(t, network, epoch, bs, results, done + {bs[i].commitment}, m[bs[i].commitment := row])
  {}

  method SortEpochs(us: seq<EpochRecord>) returns (es: seq<EpochRecord>)
    requires forall i, j :: 0 <= i < j < |us| ==> us[i].epoch != us[j].epoch
    ensures forall i, j :: 0 <= i < j < |es| ==> es[i].epoch < es[j].epoch
    ensures forall r :: r in es <==> r in us
  {
    assert TotalPreorder(EpochLeq);
    es := SortSlice(us, EpochLeq);
    SameElements(es, us);
    DistinctKeys(es, us, (r: EpochRecord) => r.epoch);
  }

  method SortRecords(us: seq<BlobRecord>) returns (recs: seq<BlobRecord>)
    requires forall i, j :: 0 <= i < j < |us| ==> us[i].commitment != us[j].commitment
    ensures SortedBy(recs, RecordLeq)
    ensures forall i, j :: 0 <= i < j < |recs| ==> recs[i].commitment != recs[j].commitment
    ensures forall k :: k in recs <==> k in us
  {
    assert TotalPreorder(RecordLeq);
    recs := SortSlice(us, RecordLeq);
    SameElements(recs, us);
    DistinctKeys(recs, us, (k: BlobRecord) => k.commitment);
  }

  // ---------------------------------------------------------------------------------
  // Facts about single operations
  // ---------------------------------------------------------------------------------

  /** Saving an epoch makes it exist for this network unless the number is taken by another
      network's row: the primary key does not include the network. */
  lemma SavedExists(t: Tables, network: string, r: EpochResult, count: int)
    ensures Exists(SavedEpoch(t, network, r, count), network, r.epoch)
            <==> r.epoch !in t.epochs || t.epochs[r.epoch].network == network
  {}

  /** The saved row, field by field; every other row stays. */
  lemma SavedRow(t: Tables, network: string, r: EpochResult, count: int)
    ensures var t', e := SavedEpoch(t, network, r, count), r.epoch;
            && t'.blobs == t.blobs && t'.epochs.Keys == t.epochs.Keys + {e}
            && (forall k :: k in t.epochs && k != e ==> t'.epochs[k] == t.epochs[k])
            && t'.epochs[e].cid == Text(r.cid) && t'.epochs[e].blobCount == count
            && t'.epochs[e].sizeBytes == r.approximateSizeBytes
            && (if e in t.epochs
                then t'.epochs[e].network == t.epochs[e].network && t'.epochs[e].slot == t.epochs[e].slot
                else t'.epochs[e].network == network && t'.epochs[e].slot == 32 * e)
  {}

  /** A row has blob i's identity: where and how large it is. */
  ghost predicate HasPlace(row: BlobRow, network: string, epoch: nat, b: BlobInput, r: BlobResult) {
    && row.network == network && row.epoch == epoch && row.slot == Int64(b.slot) && row.index == b.index
    && row.sizeBytes == r.sizeBytes
  }

  ghost predicate SamePlace(a: BlobRow, b: BlobRow) {
    a.network == b.network && a.epoch == b.epoch && a.slot == b.slot && a.index == b.index && a.sizeBytes == b.sizeBytes
  }

  /** A row has blob i's CIDs, hashes and block. */
  ghost predicate HasColumns(row: BlobRow, b: BlobInput, r: BlobResult) {
    && row.dataCid == Text(r.dataCid) && row.metaCid == Text(r.metaCid)
    && row.versionedHash == b.versionedHash && row.txHash == b.txHash
    && row.blockNumber == Int64(b.blockNumber) && row.blockHash == b.blockHash
  }

  /** What SaveBlobs leaves of each commitment: the columns of one of its blobs; its place too if
      the commitment is new, the old place otherwise.  The epoch has a row, an empty placeholder
      if it had none. */
  lemma SavedBlobRow(t: Tables, network: string, epoch: nat, bs: seq<BlobInput>, results: seq<BlobResult>, t': Tables, b: BlobInput)
    requires BlobsSaved(t, network, epoch, bs, results, t') && b in bs
    ensures epoch in t'.epochs && b.commitment in t'.blobs
    ensures epoch !in t.epochs ==> t'.epochs[epoch] == EpochRow(network, 32 * epoch, Junk(""), 0, 0)
    ensures var c, row := b.commitment, t'.blobs[b.commitment];
            exists i :: 0 <= i < |bs| && i < |results| && bs[i].commitment == c && HasColumns(row, bs[i], results[i])
                        && if c in t.blobs then SamePlace(row, t.blobs[c]) else HasPlace(row, network, epoch, bs[i], results[i])
  {
    var c := b.commitment;
    assert c in Commitments(bs);
    assert StagedAs(t, network, epoch, bs, results, c, t'.blobs[c]);
    var i :| 0 <= i < |bs| && i < |results| && bs[i].commitment == c
             && t'.blobs[c] == Upserted(t, c, RowOf(network, epoch, bs[i], results[i]));
    UpsertedRow(t, network, epoch, c, bs[i], results[i]);
  }

  lemma UpsertedRow(t: Tables, network: string, epoch: nat, c: string, b: BlobInput, r: BlobResult)
    ensures var row := Upserted(t, c, RowOf(network, epoch, b, r));
            HasColumns(row, b, r) && if c in t.blobs then SamePlace(row, t.blobs[c]) else HasPlace(row, network, epoch, b, r)
  {}

  /** Saving the same epoch result again changes nothing. */
  lemma SaveEpochIdempotent(t: Tables, network: string, r: EpochResult, count: int)
    ensures SavedEpoch(SavedEpoch(t, network, r, count), network, r, count) == SavedEpoch(t, network, r, count)
  {}

  /** A placeholder never overwrites a real row, and saving the epoch afterwards replaces it. */
  lemma PlaceholderThenEpoch(t: Tables, network: string, r: EpochResult, count: int)
    ensures SavedEpoch(t.(epochs := WithPlaceholder(t, network, r.epoch)), network, r, count)
            == SavedEpoch(t, network, r, count)
    ensures WithPlaceholder(SavedEpoch(t, network, r, count), network, r.epoch) == SavedEpoch(t, network, r, count).epochs
  {}
}
