/**
 Tier 1 of the health check (runTier1): metadata CIDs and epoch roots recomputed from the
 database rows alone and compared with the stored ones.
 */
module Tier1 {
  import opened Ipld
  import opened Lists
  import opened EpochDag
  import opened Blobs
  import opened Database
  import opened Cached
  import Closure

  datatype Verdict = Verdict(epoch: nat, metaBad: bool, rootBad: bool, blobsBad: nat) {
    predicate Bad() { metaBad || rootBad }
  }

  /** The metadata CID recomputed from a row is, as text, the stored one. */
  predicate MetaMatches(h: Node -> Cid, epoch: nat, k: BlobRecord)
    requires Readable(k.row) && Decodable(k)
  {
    Text(h(MetadataNode(RebuiltBlob(epoch, k), k.row.dataCid.c))) == k.row.metaCid
  }

  predicate RowGood(h: Node -> Cid, epoch: nat, k: BlobRecord)
    requires Readable(k.row)
  {
    Decodable(k) && MetaMatches(h, epoch, k)
  }

  /** How many rows carry a metadata CID other than the recomputed one. */
  function BadRows(h: Node -> Cid, epoch: nat, recs: seq<BlobRecord>): nat
    requires forall k :: k in recs ==> Readable(k.row) && Decodable(k)
  {
    if recs == [] then 0
    else
      var n := |recs| - 1;
      assert recs[n] in recs;
      BadRows(h, epoch, recs[..n]) + (if MetaMatches(h, epoch, recs[n]) then 0 else 1)
  }

  /** The verdict on an epoch, from what GetBlobsByEpoch returned: an epoch without rows, or
      with one that cannot be read, is passed over; undecodable text condemns the metadata and
      ends the check; otherwise metadata and root are compared with the stored ones. */
  ghost predicate IsVerdict(h: Node -> Cid, network: string, threshold: int, slotsPerEpoch: nat, epoch: nat, stored: CidText,
                            ok: bool, recs: seq<BlobRecord>, v: Verdict)
    requires ok ==> forall k :: k in recs ==> Readable(k.row)
  {
    if !ok || recs == [] then v == Verdict(epoch, false, false, 0)
    else if exists k :: k in recs && !Decodable(k) then v == Verdict(epoch, true, false, 0)
    else
      && v.epoch == epoch
      && v.blobsBad == BadRows(h, epoch, recs)
      && (v.metaBad <==> exists k :: k in recs && !MetaMatches(h, epoch, k))
      && exists inp, rs, gs :: RootVerdict(h, network, threshold, slotsPerEpoch, epoch, stored, recs, v.rootBad, inp, rs, gs)
  }

  ghost predicate RootVerdict(h: Node -> Cid, network: string, threshold: int, slotsPerEpoch: nat, epoch: nat,
                              stored: CidText, recs: seq<BlobRecord>, bad: bool, inp: EpochInput, rs: seq<BlobResult>,
                              gs: seq<Group>)
  {
    && IsRebuilt(epoch, recs, slotsPerEpoch, inp, rs) && IsGrouping(Entries(inp.blobs, rs), gs)
    && (bad <==> Text(h(EpochNodeOf(h, inp, rs, network, threshold, gs))) != stored)
  }

  /** One worker's job. */
  method CheckEpoch(h: Node -> Cid, network: string, threshold: int, slotsPerEpoch: nat, epoch: nat, stored: CidText,
                    ok: bool, recs: seq<BlobRecord>)
    returns (v: Verdict)
    requires ok ==> forall k :: k in recs ==> Readable(k.row)
    ensures IsVerdict(h, network, threshold, slotsPerEpoch, epoch, stored, ok, recs, v)
    ensures v.metaBad <==> ok && exists k :: k in recs && !RowGood(h, epoch, k)
  {
    v := Verdict(epoch, false, false, 0);
    if !ok || recs == [] { return; }
    var rebuilt := ReconstructFromDB(epoch, recs, slotsPerEpoch);
    if rebuilt.None? {
      v := v.(metaBad := true);
      return;
    }
    var input, results := rebuilt.value.0, rebuilt.value.1;
    var bad := CountBadMeta(h, epoch, recs, input, results, slotsPerEpoch);
    var store := new MemBlockstore();
    var built, groups := BuildEpochNode(store, h, input, results, network, threshold);
    v := Verdict(epoch, bad > 0, Text(built.cid) != stored, bad);
    assert RootVerdict(h, network, threshold, slotsPerEpoch, epoch, stored, recs, v.rootBad, input, results, groups);
  }

  /** Both ways to be meta-bad are one: some row is not good. */
  lemma MetaBadIff(h: Node -> Cid, network: string, threshold: int, slotsPerEpoch: nat, epoch: nat, stored: CidText,
                   ok: bool, recs: seq<BlobRecord>, v: Verdict)
    requires ok ==> forall k :: k in recs ==> Readable(k.row)
    requires IsVerdict(h, network, threshold, slotsPerEpoch, epoch, stored, ok, recs, v)
    ensures v.metaBad <==> ok && exists k :: k in recs && !RowGood(h, epoch, k)
  {}

  lemma BadRowsNext(h: Node -> Cid, epoch: nat, recs: seq<BlobRecord>, i: nat)
    requires i < |recs| && forall k :: k in recs ==> Readable(k.row) && Decodable(k)
    ensures recs[i] in recs
    ensures BadRows(h, epoch, recs[..i + 1]) == BadRows(h, epoch, recs[..i]) + (if MetaMatches(h, epoch, recs[i]) then 0 else 1)
  {
    assert recs[..i + 1][..i] == recs[..i];
  }

  lemma {:induction false} BadRowsPositive(h: Node -> Cid, epoch: nat, recs: seq<BlobRecord>)
    requires forall k :: k in recs ==> Readable(k.row) && Decodable(k)
    ensures BadRows(h, epoch, recs) > 0 <==> exists k :: k in recs && !MetaMatches(h, epoch, k)
    decreases |recs|
  {
    if recs != [] {
      var n := |recs| - 1;
      var front := recs[..n];
      assert recs == front + [recs[n]];
      BadRowsPositive(h, epoch, front);
      assert recs[n] in recs;
      if k :| k in front && !MetaMatches(h, epoch, k) {
        assert k in recs;
      }
    }
  }

  /** It is the number of rows whose metadata does not recompute. */
  lemma {:induction false} BadRowsCount(h: Node -> Cid, epoch: nat, recs: seq<BlobRecord>)
    requires forall k :: k in recs ==> Readable(k.row) && Decodable(k)
    ensures BadRows(h, epoch, recs) == |BadPositions(h, epoch, recs)|
    decreases |recs|
  {
    if recs != [] {
      var n := |recs| - 1;
      BadRowsCount(h, epoch, recs[..n]);
      assert recs[n] in recs;
      assert forall i :: i in BadPositions(h, epoch, recs) <==>
               i in BadPositions(h, epoch, recs[..n]) || (i == n && !MetaMatches(h, epoch, recs[n]));
      if MetaMatches(h, epoch, recs[n]) {
        assert BadPositions(h, epoch, recs) == BadPositions(h, epoch, recs[..n]);
      } else {
        assert BadPositions(h, epoch, recs) == BadPositions(h, epoch, recs[..n]) + {n};
      }
    }
  }

  ghost function BadPositions(h: Node -> Cid, epoch: nat, recs: seq<BlobRecord>): set<nat> {
    set i: nat | i in Below(|recs|) && Readable(recs[i].row) && Decodable(recs[i]) && !MetaMatches(h, epoch, recs[i])
  }

  method CountBadMeta(h: Node -> Cid, epoch: nat, recs: seq<BlobRecord>, inp: EpochInput, results: seq<BlobResult>,
                      ghost slotsPerEpoch: nat)
    returns (bad: nat)
    requires IsRebuilt(epoch, recs, slotsPerEpoch, inp, results)
    ensures forall k :: k in recs ==> Readable(k.row) && Decodable(k)
    ensures bad > 0 <==> exists k :: k in recs && !MetaMatches(h, epoch, k)
    ensures bad == BadRows(h, epoch, recs)
  {
    bad := 0;
    for i := 0 to |recs|
      invariant bad == BadRows(h, epoch, recs[..i])
    {
      BadRowsNext(h, epoch, recs, i);
      var store := new MemBlockstore();
      var c := StoreBlobMetadata(store, h, inp.blobs[i], results[i].dataCid);
      if Text(c) != recs[i].row.metaCid {
        bad := bad + 1;
      }
    }
    assert recs[..|recs|] == recs;
    BadRowsPositive(h, epoch, recs);
  }

  /** What GetBlobsByEpoch returns on tables t. */
  ghost predicate Returned(t: Tables, network: string, epoch: nat, ok: bool, recs: seq<BlobRecord>) {
    IsListing(t, network, epoch, recs) && (ok <==> forall k :: k in recs ==> Readable(k.row))
  }

  /** A verdict one of the workers may give on a listed epoch. */
  ghost predicate Judged(h: Node -> Cid, t: Tables, network: string, threshold: int, slotsPerEpoch: nat, r: EpochRecord,
                         v: Verdict)
  {
    exists ok, recs ::
      Returned(t, network, r.epoch, ok, recs) && IsVerdict(h, network, threshold, slotsPerEpoch, r.epoch, r.cid, ok, recs, v)
  }

  /** The verdicts of a run of Tier 1: one for each epoch listed for the network, in order. */
  ghost predicate IsRun(h: Node -> Cid, t: Tables, network: string, threshold: int, slotsPerEpoch: nat, vs: seq<Verdict>) {
    exists es :: IsEpochListing(t, network, es) && AllJudged(h, t, network, threshold, slotsPerEpoch, es, vs)
  }

  ghost predicate AllJudged(h: Node -> Cid, t: Tables, network: string, threshold: int, slotsPerEpoch: nat,
                            es: seq<EpochRecord>, vs: seq<Verdict>)
  {
    |vs| == |es| && forall i :: 0 <= i < |es| ==> Judged(h, t, network, threshold, slotsPerEpoch, es[i], vs[i])
  }

  /** runTier1: the workers finish in any order, each filling its epoch's entry. */
  method RunTier1(db: Client, h: Node -> Cid, network: string, threshold: int, slotsPerEpoch: nat, backfill0: seq<nat>)
    returns (metaBad: seq<nat>, rootBad: seq<nat>, blobBad: nat, backfill: seq<nat>, ghost vs: seq<Verdict>)
    ensures IsRun(h, db.Contents(), network, threshold, slotsPerEpoch, vs)
    ensures backfill == backfill0 + Picked(vs, IsBad)
    ensures metaBad == Picked(vs, IsMetaBad) && rootBad == Picked(vs, IsRootBad) && blobBad == BadBlobs(vs)
  {
    var es := db.GetAllEpochs(network);
    var results := seq(|es|, i => Verdict(0, false, false, 0));
    var left := Below(|es|);
    while left != {}
      invariant |results| == |es| && left <= Below(|es|)
      invariant forall i :: 0 <= i < |es| && i !in left ==>
                  Judged(h, db.Contents(), network, threshold, slotsPerEpoch, es[i], results[i])
      decreases |left|
    {
      var i :| i in left;
      var ok, recs := db.GetBlobsByEpoch(network, es[i].epoch);
      var v := CheckEpoch(h, network, threshold, slotsPerEpoch, es[i].epoch, es[i].cid, ok, recs);
      assert Returned(db.Contents(), network, es[i].epoch, ok, recs);
      results := results[i := v];
      left := left - {i};
    }
    vs := results;
    metaBad, rootBad, blobBad, backfill := CollectVerdicts(results, backfill0);
  }

  lemma VerdictEpoch(h: Node -> Cid, t: Tables, network: string, threshold: int, slotsPerEpoch: nat, r: EpochRecord, v: Verdict)
    requires Judged(h, t, network, threshold, slotsPerEpoch, r, v)
    ensures v.epoch == r.epoch
  {}

  ghost predicate DistinctEpochs(vs: seq<Verdict>) { forall i, j :: 0 <= i < j < |vs| ==> vs[i].epoch != vs[j].epoch }

  lemma RunIsDistinct(h: Node -> Cid, t: Tables, network: string, threshold: int, slotsPerEpoch: nat, es: seq<EpochRecord>,
                      vs: seq<Verdict>)
    requires IsEpochListing(t, network, es) && AllJudged(h, t, network, threshold, slotsPerEpoch, es, vs)
    ensures forall i :: 0 <= i < |vs| ==> vs[i].epoch == es[i].epoch
    ensures DistinctEpochs(vs)
  {
    forall i | 0 <= i < |vs|
      ensures vs[i].epoch == es[i].epoch
    {
      VerdictEpoch(h, t, network, threshold, slotsPerEpoch, es[i], vs[i]);
    }
  }

  /** An epoch listed for the network has a verdict, which decides the lists it is on. */
  lemma ListedVerdict(h: Node -> Cid, t: Tables, network: string, threshold: int, slotsPerEpoch: nat, vs: seq<Verdict>, e: nat)
    returns (v: Verdict, ok: bool, recs: seq<BlobRecord>)
    requires IsRun(h, t, network, threshold, slotsPerEpoch, vs) && Exists(t, network, e)
    ensures Returned(t, network, e, ok, recs)
    ensures IsVerdict(h, network, threshold, slotsPerEpoch, e, t.epochs[e].cid, ok, recs, v)
    ensures v in vs && v.epoch == e && DistinctEpochs(vs)
  {
    var es :| IsEpochListing(t, network, es) && AllJudged(h, t, network, threshold, slotsPerEpoch, es, vs);
    RunIsDistinct(h, t, network, threshold, slotsPerEpoch, es, vs);
    assert RecordOf(t, e) in es;
    var i :| 0 <= i < |es| && es[i] == RecordOf(t, e);
    v := vs[i];
    ok, recs := Judgement(h, t, network, threshold, slotsPerEpoch, es[i], v);
  }

  lemma Judgement(h: Node -> Cid, t: Tables, network: string, threshold: int, slotsPerEpoch: nat, r: EpochRecord, v: Verdict)
    returns (ok: bool, recs: seq<BlobRecord>)
    requires Judged(h, t, network, threshold, slotsPerEpoch, r, v)
    ensures Returned(t, network, r.epoch, ok, recs)
    ensures IsVerdict(h, network, threshold, slotsPerEpoch, r.epoch, r.cid, ok, recs, v)
  {
    ok, recs :| Returned(t, network, r.epoch, ok, recs)
                && IsVerdict(h, network, threshold, slotsPerEpoch, r.epoch, r.cid, ok, recs, v);
  }

  /** An epoch is picked if its one verdict passes the test. */
  lemma PickedBy(vs: seq<Verdict>, v: Verdict, test: Verdict -> bool)
    requires DistinctEpochs(vs) && v in vs
    ensures v.epoch in Picked(vs, test) <==> test(v)
  {
    PickedOnce(vs, test);
  }

  /** The lists of a run ascend, as the listing does. */
  lemma RunListsAscend(h: Node -> Cid, t: Tables, network: string, threshold: int, slotsPerEpoch: nat, vs: seq<Verdict>,
                       test: Verdict -> bool)
    requires IsRun(h, t, network, threshold, slotsPerEpoch, vs)
    ensures AscendingNats(Picked(vs, test))
  {
    var es :| IsEpochListing(t, network, es) && AllJudged(h, t, network, threshold, slotsPerEpoch, es, vs);
    RunIsDistinct(h, t, network, threshold, slotsPerEpoch, es, vs);
    PickedAscends(vs, test);
  }

  /** An epoch that is not listed is on no list. */
  lemma UnlistedPasses(h: Node -> Cid, t: Tables, network: string, threshold: int, slotsPerEpoch: nat, vs: seq<Verdict>,
                       e: nat, test: Verdict -> bool)
    requires IsRun(h, t, network, threshold, slotsPerEpoch, vs) && !Exists(t, network, e)
    ensures e !in Picked(vs, test)
  {
    var es :| IsEpochListing(t, network, es) && AllJudged(h, t, network, threshold, slotsPerEpoch, es, vs);
    RunIsDistinct(h, t, network, threshold, slotsPerEpoch, es, vs);
    PickedOnce(vs, test);
    forall v | v in vs
      ensures v.epoch != e
    {
      var i :| 0 <= i < |vs| && vs[i] == v;
      assert es[i] in es;
    }
  }

  /** Rows of a fresh run are good, be the commitments new or not: the Size fallback makes the
      recomputed metadata equal the original although the data is not there any more. */
  lemma FreshRowsGood(h: Node -> Cid, t: Tables, network: string, inp: EpochInput, t2: Tables, slotsPerEpoch: nat,
                      recs: seq<BlobRecord>)
    requires RowsWritten(h, t, network, inp, t2) && FromBeacon(inp, slotsPerEpoch)
    requires IsListing(t2, network, inp.epoch, recs)
    ensures forall k :: k in recs ==> Readable(k.row) && RowGood(h, inp.epoch, k)
  {
    forall k | k in recs
      ensures Readable(k.row) && RowGood(h, inp.epoch, k)
    {
      var i := RecordOfBlob(h, t, network, inp, t2, recs, k);
      WrittenRowGood(h, network, inp, slotsPerEpoch, i);
    }
  }

  /** Rows written by a fresh run of new commitments pass Tier 1, whatever the hash. */
  lemma FreshPasses(h: Node -> Cid, t: Tables, network: string, inp: EpochInput, threshold: int, gs: seq<Group>, t2: Tables,
                      slotsPerEpoch: nat, ok: bool, recs: seq<BlobRecord>, v: Verdict)
    requires FreshRun(h, t, network, inp, threshold, gs, t2) && NewCommitments(t, inp.blobs) && FromBeacon(inp, slotsPerEpoch)
    requires Unambiguous(Entries(inp.blobs, Closure.Results(h, inp.blobs)))
    requires Returned(t2, network, inp.epoch, ok, recs) && inp.epoch in t2.epochs
    requires IsVerdict(h, network, threshold, slotsPerEpoch, inp.epoch, t2.epochs[inp.epoch].cid, ok, recs, v)
    ensures !v.Bad()
  {
    FreshRunWrites(h, t, network, inp, threshold, gs, t2);
    FreshRowsGood(h, t, network, inp, t2, slotsPerEpoch, recs);
    if recs != [] {
      var inp', rs', gs' :| RootVerdict(h, network, threshold, slotsPerEpoch, inp.epoch, t2.epochs[inp.epoch].cid, recs,
                                        v.rootBad, inp', rs', gs');
      StoredResult(h, t, network, inp, threshold, gs, t2);
      CachedEqualsFresh(h, t, network, inp, threshold, gs, t2, slotsPerEpoch, recs, inp', rs', gs');
    }
  }

  /** And only those: a repeated commitment, or one stored before, always shows as a bad root -
      unless no row at all came back to the epoch, which is then passed over. */
  lemma FreshRootBadIff(h: Node -> Cid, t: Tables, network: string, inp: EpochInput, threshold: int, gs: seq<Group>,
                        t2: Tables, slotsPerEpoch: nat, ok: bool, recs: seq<BlobRecord>, v: Verdict)
    requires CollisionFree(h) && FreshRun(h, t, network, inp, threshold, gs, t2) && FromBeacon(inp, slotsPerEpoch)
    requires Unambiguous(Entries(inp.blobs, Closure.Results(h, inp.blobs)))
    requires Returned(t2, network, inp.epoch, ok, recs) && inp.epoch in t2.epochs
    requires IsVerdict(h, network, threshold, slotsPerEpoch, inp.epoch, t2.epochs[inp.epoch].cid, ok, recs, v)
    ensures !v.metaBad
    ensures v.rootBad <==> !NewCommitments(t, inp.blobs) && exists b :: b in inp.blobs && b.commitment !in t.blobs
  {
    FreshRunWrites(h, t, network, inp, threshold, gs, t2);
    FreshRowsGood(h, t, network, inp, t2, slotsPerEpoch, recs);
    SomeRowBack(h, t, network, inp, t2, recs);
    if NewCommitments(t, inp.blobs) {
      FreshPasses(h, t, network, inp, threshold, gs, t2, slotsPerEpoch, ok, recs, v);
    } else if recs != [] {
      var inp', rs', gs' :| RootVerdict(h, network, threshold, slotsPerEpoch, inp.epoch, t2.epochs[inp.epoch].cid, recs,
                                        v.rootBad, inp', rs', gs');
      StoredResult(h, t, network, inp, threshold, gs, t2);
      if !v.rootBad {
        CachedEqualsFreshOnlyIf(h, t, network, inp, threshold, gs, t2, slotsPerEpoch, recs, inp', rs', gs');
      }
    }
  }

  /** The tables after a fresh run list the epoch for the network unless its number was taken by
      another network before. */
  lemma FreshListed(h: Node -> Cid, t: Tables, network: string, inp: EpochInput, threshold: int, gs: seq<Group>, t2: Tables)
    requires FreshRun(h, t, network, inp, threshold, gs, t2)
    ensures Exists(t2, network, inp.epoch) <==> inp.epoch !in t.epochs || t.epochs[inp.epoch].network == network
  {
    SavedExists(t, network, FreshResult(h, network, inp, threshold, gs), |inp.blobs|);
  }

  /** An epoch freshly written with new commitments is on no list, whatever the hash. */
  lemma FreshRowsPass(h: Node -> Cid, t: Tables, network: string, inp: EpochInput, threshold: int, gs: seq<Group>, t2: Tables,
                      slotsPerEpoch: nat, vs: seq<Verdict>)
    requires FreshRun(h, t, network, inp, threshold, gs, t2) && NewCommitments(t, inp.blobs) && FromBeacon(inp, slotsPerEpoch)
    requires Unambiguous(Entries(inp.blobs, Closure.Results(h, inp.blobs)))
    requires IsRun(h, t2, network, threshold, slotsPerEpoch, vs)
    ensures inp.epoch !in Picked(vs, IsBad)
  {
    if Exists(t2, network, inp.epoch) {
      var v, ok, recs := ListedVerdict(h, t2, network, threshold, slotsPerEpoch, vs, inp.epoch);
      FreshPasses(h, t, network, inp, threshold, gs, t2, slotsPerEpoch, ok, recs, v);
      PickedBy(vs, v, IsBad);
    } else {
      UnlistedPasses(h, t2, network, threshold, slotsPerEpoch, vs, inp.epoch, IsBad);
    }
  }

  /** Which freshly written epochs a run reports: none as meta-bad; as root-bad exactly those
      whose number is not another network's and whose commitments were not all new but some. */
  lemma FreshVerdictIff(h: Node -> Cid, t: Tables, network: string, inp: EpochInput, threshold: int, gs: seq<Group>,
                        t2: Tables, slotsPerEpoch: nat, vs: seq<Verdict>)
    requires CollisionFree(h) && FreshRun(h, t, network, inp, threshold, gs, t2) && FromBeacon(inp, slotsPerEpoch)
    requires Unambiguous(Entries(inp.blobs, Closure.Results(h, inp.blobs)))
    requires IsRun(h, t2, network, threshold, slotsPerEpoch, vs)
    ensures inp.epoch !in Picked(vs, IsMetaBad)
    ensures inp.epoch in Picked(vs, IsRootBad) <==>
              && (inp.epoch !in t.epochs || t.epochs[inp.epoch].network == network)
              && !NewCommitments(t, inp.blobs) && exists b :: b in inp.blobs && b.commitment !in t.blobs
  {
    FreshListed(h, t, network, inp, threshold, gs, t2);
    if Exists(t2, network, inp.epoch) {
      var v, ok, recs := ListedVerdict(h, t2, network, threshold, slotsPerEpoch, vs, inp.epoch);
      FreshRootBadIff(h, t, network, inp, threshold, gs, t2, slotsPerEpoch, ok, recs, v);
      PickedBy(vs, v, IsMetaBad);
      PickedBy(vs, v, IsRootBad);
    } else {
      UnlistedPasses(h, t2, network, threshold, slotsPerEpoch, vs, inp.epoch, IsMetaBad);
      UnlistedPasses(h, t2, network, threshold, slotsPerEpoch, vs, inp.epoch, IsRootBad);
    }
  }

  lemma WrittenRowGood(h: Node -> Cid, network: string, inp: EpochInput, slotsPerEpoch: nat, i: nat)
    requires FromBeacon(inp, slotsPerEpoch) && i < |inp.blobs|
    ensures var k := Written(h, network, inp, i); Readable(k.row) && RowGood(h, inp.epoch, k)
  {
    var b, k := inp.blobs[i], Written(h, network, inp, i);
    assert b in inp.blobs;
    assert MetadataNode(RebuiltBlob(inp.epoch, k), k.row.dataCid.c) == MetaNode(h, b);
  }

  /** t with another text in one row's meta_cid. */
  function Altered(t: Tables, c: string, text: CidText): Tables
    requires c in t.blobs
  {
    t.(blobs := t.blobs[c := t.blobs[c].(metaCid := text)])
  }

  lemma AlteredReadable(t: Tables, network: string, epoch: nat, c: string, text: CidText, recs: seq<BlobRecord>)
    requires c in t.blobs && IsListing(Altered(t, c, text), network, epoch, recs)
    ensures (forall k :: k in recs ==> Readable(k.row))
            <==> forall b :: Selected(t, network, epoch, b) ==> Readable(t.blobs[b])
  {
    var t' := Altered(t, c, text);
    forall b | Selected(t, network, epoch, b)
      ensures BlobRecord(b, t'.blobs[b]) in recs && (Readable(t'.blobs[b]) <==> Readable(t.blobs[b]))
    {}
  }

  /** The verdict on an epoch with an altered meta_cid. */
  lemma AlteredMetaBadIff(h: Node -> Cid, t: Tables, network: string, threshold: int, slotsPerEpoch: nat, epoch: nat,
                             stored: CidText, c: string, text: CidText, ok: bool, recs: seq<BlobRecord>, v: Verdict)
    requires Selected(t, network, epoch, c) && Readable(t.blobs[c]) && RowGood(h, epoch, BlobRecord(c, t.blobs[c]))
    requires text != t.blobs[c].metaCid && Returned(Altered(t, c, text), network, epoch, ok, recs)
    requires IsVerdict(h, network, threshold, slotsPerEpoch, epoch, stored, ok, recs, v)
    ensures v.metaBad <==> forall b :: Selected(t, network, epoch, b) ==> Readable(t.blobs[b])
  {
    var good, k := BlobRecord(c, t.blobs[c]), BlobRecord(c, t.blobs[c].(metaCid := text));
    assert k in recs;
    assert RebuiltBlob(epoch, k) == RebuiltBlob(epoch, good);
    assert Readable(k.row) && !RowGood(h, epoch, k);
    AlteredReadable(t, network, epoch, c, text, recs);
    MetaBadIff(h, network, threshold, slotsPerEpoch, epoch, stored, ok, recs, v);
  }

  /** Altering the stored meta_cid of one good row - to another CID, to another spelling of the
      same CID, to anything that is not one - makes a run report its epoch as meta-bad if and only
      if the epoch's row is this network's and every blob row of the epoch can be read. */
  lemma AlteredMetaIsFlagged(h: Node -> Cid, t: Tables, network: string, threshold: int, slotsPerEpoch: nat, epoch: nat,
                             c: string, text: CidText, vs: seq<Verdict>)
    requires Selected(t, network, epoch, c) && Readable(t.blobs[c]) && RowGood(h, epoch, BlobRecord(c, t.blobs[c]))
    requires text != t.blobs[c].metaCid && IsRun(h, Altered(t, c, text), network, threshold, slotsPerEpoch, vs)
    ensures epoch in Picked(vs, IsMetaBad) <==>
              Exists(t, network, epoch) && forall b :: Selected(t, network, epoch, b) ==> Readable(t.blobs[b])
  {
    var t' := Altered(t, c, text);
    if Exists(t, network, epoch) {
      var v, ok, recs := ListedVerdict(h, t', network, threshold, slotsPerEpoch, vs, epoch);
      AlteredMetaBadIff(h, t, network, threshold, slotsPerEpoch, epoch, t'.epochs[epoch].cid, c, text, ok, recs, v);
      PickedBy(vs, v, IsMetaBad);
    } else {
      UnlistedPasses(h, t', network, threshold, slotsPerEpoch, vs, epoch, IsMetaBad);
    }
  }

  /** A good row of epoch 0. */
  function GoodRow(h: Node -> Cid, network: string): (r: BlobRow)
    ensures Readable(r) && RowGood(h, 0, BlobRecord("a", r))
    ensures r.epoch == 0 && r.network == network && r.index == 0 && r.metaCid.Canonical?
  {
    var row := BlobRow(0, 0, network, 0, Text(Cid(0)), Junk(""), "", "", 0, "", 1);
    var k := BlobRecord("a", row);
    assert forall text :: RebuiltBlob(0, k.(row := row.(metaCid := text))) == RebuiltBlob(0, k);
    row.(metaCid := Text(h(MetadataNode(RebuiltBlob(0, k), Cid(0)))))
  }

  /** The first other case: the epoch has a good row and one whose slot is negative.  With the
      good row's meta_cid altered, reading the epoch fails and it passes. */
  lemma UnreadableRowHides(h: Node -> Cid, network: string, threshold: int, slotsPerEpoch: nat, stored: CidText)
    returns (t: Tables)
    ensures Exists(t, network, 0) && t.epochs[0].cid == stored && Selected(t, network, 0, "a")
    ensures Readable(t.blobs["a"]) && RowGood(h, 0, BlobRecord("a", t.blobs["a"])) && t.blobs["a"].metaCid != Junk("")
    ensures IsRun(h, Altered(t, "a", Junk("")), network, threshold, slotsPerEpoch, [Verdict(0, false, false, 0)])
  {
    var good := GoodRow(h, network);
    var unread := good.(slot := -1, index := 1);
    t := Tables(map[0 := EpochRow(network, 0, stored, 2, 2)], map["a" := good, "b" := unread]);
    var t' := Altered(t, "a", Junk(""));
    var row := good.(metaCid := Junk(""));
    assert t'.blobs == map["a" := row, "b" := unread];
    var recs := [BlobRecord("a", row), BlobRecord("b", unread)];
    assert recs[1] in recs;
    assert Returned(t', network, 0, false, recs);
    var e, v := EpochRecord(0, stored, 2), Verdict(0, false, false, 0);
    assert Judged(h, t', network, threshold, slotsPerEpoch, e, v);
    assert IsEpochListing(t', network, [e]);
    assert AllJudged(h, t', network, threshold, slotsPerEpoch, [e], [v]);
  }

  /** The second: the epoch number is another network's.  The rows can all be read, but the epoch
      is not listed and passes. */
  lemma ForeignEpochHides(h: Node -> Cid, network: string, other: string, threshold: int, slotsPerEpoch: nat, stored: CidText)
    returns (t: Tables)
    requires other != network
    ensures 0 in t.epochs && Selected(t, network, 0, "a") && t.blobs["a"].metaCid != Junk("")
    ensures forall b :: Selected(t, network, 0, b) ==> Readable(t.blobs[b]) && RowGood(h, 0, BlobRecord(b, t.blobs[b]))
    ensures IsRun(h, Altered(t, "a", Junk("")), network, threshold, slotsPerEpoch, [])
  {
    t := Tables(map[0 := EpochRow(other, 0, stored, 1, 1)], map["a" := GoodRow(h, network)]);
    assert IsEpochListing(Altered(t, "a", Junk("")), network, []);
    assert AllJudged(h, Altered(t, "a", Junk("")), network, threshold, slotsPerEpoch, [], []);
  }

  // ---------------------------------------------------------------------------------
  // What is handed to the repair
  // ---------------------------------------------------------------------------------

  predicate IsMetaBad(v: Verdict) { v.metaBad }

  predicate IsRootBad(v: Verdict) { v.rootBad }

  predicate IsBad(v: Verdict) { v.Bad() }

  /** The epochs of the verdicts a test picks out, in order. */
  function Picked(vs: seq<Verdict>, test: Verdict -> bool): seq<nat> {
    if vs == [] then []
    else Picked(vs[..|vs| - 1], test) + (if test(vs[|vs| - 1]) then [vs[|vs| - 1].epoch] else [])
  }

  function BadBlobs(vs: seq<Verdict>): nat {
    if vs == [] then 0
    else BadBlobs(vs[..|vs| - 1]) + (if vs[|vs| - 1].metaBad then vs[|vs| - 1].blobsBad else 0)
  }

  /** It is the sum over the meta-bad verdicts. */
  lemma {:induction false} BadBlobsIsSum(vs: seq<Verdict>, f: Verdict -> int)
    requires forall v :: f(v) == if v.metaBad then v.blobsBad else 0
    ensures BadBlobs(vs) == Sum(Map(vs, f))
    decreases |vs|
  {
    if vs != [] {
      var n := |vs| - 1;
      BadBlobsIsSum(vs[..n], f);
      assert Map(vs, f)[..n] == Map(vs[..n], f);
    }
  }

  /** Picking keeps the order: ascending verdicts give an ascending list. */
  lemma {:induction false} PickedAscends(vs: seq<Verdict>, test: Verdict -> bool)
    requires forall i, j :: 0 <= i < j < |vs| ==> vs[i].epoch < vs[j].epoch
    ensures AscendingNats(Picked(vs, test))
    decreases |vs|
  {
    if vs != [] {
      var n := |vs| - 1;
      var front := Picked(vs[..n], test);
      PickedAscends(vs[..n], test);
      PickedOnce(vs[..n], test);
      forall i | 0 <= i < |front|
        ensures front[i] < vs[n].epoch
      {
        assert front[i] in front;
        var v :| v in vs[..n] && v.epoch == front[i];
      }
    }
  }

  /** The closing loop of runTier1: two lists for the report, one for the repair. */
  method CollectVerdicts(vs: seq<Verdict>, backfill0: seq<nat>)
    returns (metaBad: seq<nat>, rootBad: seq<nat>, blobBad: nat, backfill: seq<nat>)
    ensures backfill == backfill0 + Picked(vs, IsBad)
    ensures metaBad == Picked(vs, IsMetaBad) && rootBad == Picked(vs, IsRootBad)
    ensures blobBad == BadBlobs(vs)
  {
    metaBad, rootBad, blobBad, backfill := [], [], 0, backfill0;
    for i := 0 to |vs|
      invariant backfill == backfill0 + Picked(vs[..i], IsBad)
      invariant metaBad == Picked(vs[..i], IsMetaBad) && rootBad == Picked(vs[..i], IsRootBad)
      invariant blobBad == BadBlobs(vs[..i])
    {
      var v := vs[i];
      assert vs[..i + 1][..i] == vs[..i];
      if v.metaBad {
        metaBad := metaBad + [v.epoch];
        backfill := backfill + [v.epoch];
        blobBad := blobBad + v.blobsBad;
      }
      if v.rootBad {
        rootBad := rootBad + [v.epoch];
        if !v.metaBad {
          backfill := backfill + [v.epoch];
        }
      }
    }
    assert vs[..|vs|] == vs;
  }

  /** A list so picked has exactly the epochs that pass the test, each once: the verdicts are of
      distinct epochs, as the rows of a table keyed by epoch are. */
  lemma {:induction false} PickedOnce(vs: seq<Verdict>, test: Verdict -> bool)
    requires forall i, j :: 0 <= i < j < |vs| ==> vs[i].epoch != vs[j].epoch
    ensures forall e :: e in Picked(vs, test) <==> exists v :: v in vs && v.epoch == e && test(v)
    ensures NoRepeats(Picked(vs, test))
    decreases |vs|
  {
    if vs != [] {
      var n := |vs| - 1;
      PickedOnce(vs[..n], test);
      assert vs == vs[..n] + [vs[n]];
      assert forall v :: v in vs[..n] ==> v.epoch != vs[n].epoch;
      assert vs[n].epoch !in Picked(vs[..n], test);
      forall e
        ensures e in Picked(vs, test) <==> exists v :: v in vs && v.epoch == e && test(v)
      {
        if e in Picked(vs[..n], test) {
          var v :| v in vs[..n] && v.epoch == e && test(v);
          assert v in vs;
        }
        assert vs[n] in vs;
        if v :| v in vs && v.epoch == e && test(v) {
          assert v in vs[..n] || v == vs[n];
        }
      }
    }
  }
}
