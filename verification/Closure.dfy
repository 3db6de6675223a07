/**
 The finished epoch DAG: everything its root reaches is in the staging store, and which of
 it the export-car command lists.
 */
module Closure {
  import opened Common
  import opened Ipld
  import opened Lists
  import opened EpochDag
  import opened Blobs

  function MetaSet(es: seq<Entry>): set<Cid> { set e | e in es :: e.occ.meta }

  lemma ListMembers(es: seq<Entry>, v: string, metas: seq<Cid>, c: Cid)
    requires IsList(es, v, metas)
    ensures c in metas <==> exists e :: e in es && e.hash == v && e.occ.meta == c
  {
    var p :| IsOrdering(p, Filter(es, v), OccLeq) && metas == Metas(p);
    SameElements(p, Filter(es, v));
    FilterMembers(es, v);
    if c in metas {
      var i :| 0 <= i < |metas| && metas[i] == c;
      assert p[i] in p;
      assert Entry(v, p[i]) in es;
    }
    if e :| e in es && e.hash == v && e.occ.meta == c {
      assert e == Entry(v, e.occ);
      var i :| 0 <= i < |p| && p[i] == e.occ;
      assert metas[i] == c;
    }
  }

  lemma GroupMetas(es: seq<Entry>, gs: seq<Group>, c: Cid)
    requires IsGrouping(es, gs)
    ensures c in MetaSet(es) <==> exists i :: 0 <= i < |gs| && c in gs[i].metas
  {
    if c in MetaSet(es) {
      var e :| e in es && e.occ.meta == c;
      var g :| g in gs && g.hash == e.hash;
      ListMembers(es, g.hash, g.metas, c);
      var i :| 0 <= i < |gs| && gs[i] == g;
    }
    if i :| 0 <= i < |gs| && c in gs[i].metas {
      assert gs[i] in gs;
      ListMembers(es, gs[i].hash, gs[i].metas, c);
    }
  }

  /** The inline index links to exactly the metadata of the epoch's blobs. */
  lemma IndexLinks(es: seq<Entry>, gs: seq<Group>)
    requires IsGrouping(es, gs)
    ensures Listed(IndexOf(gs)) == MetaSet(es)
  {
    IndexIs(gs);
    forall c
      ensures c in Listed(IndexOf(gs)) <==> c in MetaSet(es)
    {
      GroupMetas(es, gs, c);
      if c in MetaSet(es) {
        var i :| 0 <= i < |gs| && c in gs[i].metas;
        assert gs[i].hash in IndexOf(gs);
      }
    }
  }

  lemma ShardLinks(es: seq<Entry>, gs: seq<Group>, k: nat)
    requires IsGrouping(es, gs) && k < |Chunks(gs)|
    ensures Links(ShardNode(Chunks(gs)[k])) <= MetaSet(es)
  {
    var t := Chunks(gs)[k];
    ChunkIsRun(gs, k);
    IndexIs(t);
    forall c | c in Listed(IndexOf(t))
      ensures c in MetaSet(es)
    {
      var v :| v in IndexOf(t) && c in IndexOf(t)[v];
      var i :| 0 <= i < |t| && t[i].hash == v;
      assert t[i] in gs;
      ListMembers(es, t[i].hash, t[i].metas, c);
    }
  }

  lemma ChunkIsRun(gs: seq<Group>, k: nat)
    requires StrictlySorted(gs) && k < |Chunks(gs)|
    ensures forall i :: 0 <= i < |Chunks(gs)[k]| ==> Chunks(gs)[k][i] in gs
    ensures forall i, j :: 0 <= i < j < |Chunks(gs)[k]| ==> Chunks(gs)[k][i].hash != Chunks(gs)[k][j].hash
  {
    ChunkAt(gs, k);
    var t := Chunks(gs)[k];
    assert forall i :: 0 <= i < |t| ==> t[i] == gs[256 * k + i];
  }

  lemma {:induction false} ShardsIn(h: Node -> Cid, bs: Blocks, cs: seq<seq<Group>>, j: nat)
    requires j < |cs|
    ensures h(ShardNode(cs[j])) in PutShards(h, bs, cs)
    decreases |cs|
  {
    var last := |cs| - 1;
    if j < last { ShardsIn(h, bs, cs[..last], j); }
  }

  lemma {:induction false} ShardsClosed(h: Node -> Cid, bs: Blocks, cs: seq<seq<Group>>)
    requires Addressed(h, bs) && LinkClosed(bs)
    requires forall j :: 0 <= j < |cs| ==> Links(ShardNode(cs[j])) <= bs.Keys
    ensures var t := PutShards(h, bs, cs); Addressed(h, t) && LinkClosed(t) && bs.Keys <= t.Keys
    decreases |cs|
  {
    if cs != [] {
      var last := |cs| - 1;
      ShardsClosed(h, bs, cs[..last]);
      PutKeeps(h, PutShards(h, bs, cs[..last]), ShardNode(cs[last]));
    }
  }

  /** Storing the shards one after the other never leaves a dangling link. */
  lemma ShardsKeepClosed(h: Node -> Cid, bs: Blocks, es: seq<Entry>, gs: seq<Group>, k: nat)
    requires Addressed(h, bs) && LinkClosed(bs) && MetaSet(es) <= bs.Keys && IsGrouping(es, gs) && k <= |Chunks(gs)|
    ensures var t := PutShards(h, bs, Chunks(gs)[..k]);
            && Addressed(h, t) && LinkClosed(t) && bs.Keys <= t.Keys
            && forall j :: 0 <= j < k ==> h(ShardNode(Chunks(gs)[j])) in t
  {
    AllShardLinks(es, gs, k);
    PrefixClosed(h, bs, Chunks(gs), k, MetaSet(es));
  }

  lemma AllShardLinks(es: seq<Entry>, gs: seq<Group>, k: nat)
    requires IsGrouping(es, gs) && k <= |Chunks(gs)|
    ensures forall j :: 0 <= j < k ==> Links(ShardNode(Chunks(gs)[j])) <= MetaSet(es)
  {
    forall j | 0 <= j < k
      ensures Links(ShardNode(Chunks(gs)[j])) <= MetaSet(es)
    {
      ShardLinks(es, gs, j);
    }
  }

  lemma PrefixClosed(h: Node -> Cid, bs: Blocks, chunks: seq<seq<Group>>, k: nat, metas: set<Cid>)
    requires Addressed(h, bs) && LinkClosed(bs) && metas <= bs.Keys && k <= |chunks|
    requires forall j :: 0 <= j < k ==> Links(ShardNode(chunks[j])) <= metas
    ensures var t := PutShards(h, bs, chunks[..k]);
            && Addressed(h, t) && LinkClosed(t) && bs.Keys <= t.Keys
            && forall j :: 0 <= j < k ==> h(ShardNode(chunks[j])) in t
  {
    var cs := chunks[..k];
    assert forall j :: 0 <= j < k ==> cs[j] == chunks[j];
    ShardsClosed(h, bs, cs);
    forall j | 0 <= j < k
      ensures h(ShardNode(chunks[j])) in PutShards(h, bs, cs)
    {
      ShardsIn(h, bs, cs, j);
    }
  }

  /** The store BuildEpochNode leaves. */
  function Built(h: Node -> Cid, bs: Blocks, gs: seq<Group>, root: Node, sharded: bool): Blocks {
    (if sharded then PutShards(h, bs, Chunks(gs)) else bs)[h(root) := root]
  }

  /** Every shard is there, under its own CID, after all were stored. */
  lemma {:induction false} ShardsPut(h: Node -> Cid, bs: Blocks, cs: seq<seq<Group>>, k: nat)
    requires CollisionFree(h) && k < |cs|
    ensures var n := ShardNode(cs[k]); h(n) in PutShards(h, bs, cs) && PutShards(h, bs, cs)[h(n)] == n
    decreases |cs|
  {
    var last := |cs| - 1;
    if k < last { ShardsPut(h, bs, cs[..last], k); }
  }

  /** What BuildEpochNode leaves holds the shards its index refers to. */
  lemma BuiltHoldsShards(h: Node -> Cid, bs: Blocks, gs: seq<Group>, root: Node)
    requires CollisionFree(h) && root.EpochNode?
    ensures ShardsStored(h, Built(h, bs, gs, root, true), gs)
  {
    forall k | 0 <= k < |Chunks(gs)|
      ensures var n := ShardNode(Chunks(gs)[k]);
              h(n) in Built(h, bs, gs, root, true) && Built(h, bs, gs, root, true)[h(n)] == n
    {
      ShardsPut(h, bs, Chunks(gs), k);
    }
  }

  /** How a reader finds a versioned hash below an epoch CID, whatever the index. */
  function LookupEpoch(bs: Blocks, root: Cid, v: string): Option<seq<Cid>> {
    if root !in bs || !bs[root].EpochNode? then None
    else
      match bs[root].blobs
      case MapIndex(m) => LookupMap(m, v)
      case HamtIndex(_, shards) => LookupShards(bs, shards, v)
  }

  /** From the CID BuildEpochNode returns, in the store it leaves, every versioned hash of the
      epoch is found with the metadata of its blobs in the order of slot and index, and no other
      is found - on either side of the threshold. */
  lemma EpochLookup(h: Node -> Cid, bs: Blocks, inp: EpochInput, results: seq<BlobResult>, network: string, threshold: int,
                    gs: seq<Group>, v: string)
    requires CollisionFree(h) && |inp.blobs| == |results| && IsGrouping(Entries(inp.blobs, results), gs)
    ensures var root := EpochNodeOf(h, inp, results, network, threshold, gs);
            var found := LookupEpoch(Built(h, bs, gs, root, |results| >= threshold), h(root), v);
            && (found.Some? <==> exists b :: b in inp.blobs && b.versionedHash == v)
            && (found.Some? ==> exists at :: InSlotOrder(inp.blobs, results, v, at, found.value))
  {
    var root := EpochNodeOf(h, inp, results, network, threshold, gs);
    var t := Built(h, bs, gs, root, true);
    BuiltHoldsShards(h, bs, gs, root);
    LookupIsSortedFilter(h, t, Entries(inp.blobs, results), gs, v);
    LookupReads(h, bs, gs, root, |results| >= threshold, v);
    HasMeans(inp.blobs, results, v);
    if Has(Entries(inp.blobs, results), v) {
      var at := ListMeans(inp.blobs, results, v, LookupMap(IndexOf(gs), v).value);
    }
  }

  lemma HasMeans(blobs: seq<BlobInput>, results: seq<BlobResult>, v: string)
    requires |blobs| <= |results|
    ensures Has(Entries(blobs, results), v) <==> exists b :: b in blobs && b.versionedHash == v
  {
    var es := Entries(blobs, results);
    if e :| e in es && e.hash == v {
      var i :| 0 <= i < |es| && es[i] == e;
      assert blobs[i] in blobs;
    }
    if b :| b in blobs && b.versionedHash == v {
      var i :| 0 <= i < |blobs| && blobs[i] == b;
      assert es[i] in es;
    }
  }

  /** The lookup goes to the shards or to the inline map. */
  lemma LookupReads(h: Node -> Cid, bs: Blocks, gs: seq<Group>, root: Node, sharded: bool, v: string)
    requires root.EpochNode? && root.blobs == if sharded then HamtIndex(SHARD_SIZE, ShardCids(h, gs)) else MapIndex(IndexOf(gs))
    ensures var t := Built(h, bs, gs, root, sharded);
            LookupEpoch(t, h(root), v) == if sharded then LookupShards(t, ShardCids(h, gs), v) else LookupMap(IndexOf(gs), v)
  {}

  /** The finished epoch root resolves entirely from the staging store. */
  lemma EpochIsClosed(h: Node -> Cid, bs: Blocks, inp: EpochInput, results: seq<BlobResult>, network: string,
                      threshold: int, gs: seq<Group>)
    requires |inp.blobs| == |results| && IsGrouping(Entries(inp.blobs, results), gs)
    requires Addressed(h, bs) && LinkClosed(bs) && MetaSet(Entries(inp.blobs, results)) <= bs.Keys
    ensures var root := EpochNodeOf(h, inp, results, network, threshold, gs);
            var t := Built(h, bs, gs, root, |results| >= threshold);
            Addressed(h, t) && LinkClosed(t) && h(root) in t && bs.Keys <= t.Keys
  {
    var root := EpochNodeOf(h, inp, results, network, threshold, gs);
    if |results| >= threshold {
      ShardsKeepClosed(h, bs, Entries(inp.blobs, results), gs, |Chunks(gs)|);
      assert Chunks(gs)[..|Chunks(gs)|] == Chunks(gs);
      PutKeeps(h, PutShards(h, bs, Chunks(gs)), root);
    } else {
      IndexLinks(Entries(inp.blobs, results), gs);
      PutKeeps(h, bs, root);
    }
  }

  /** From an empty store, through any schedule of the blob workers, to the epoch root: the
      whole fresh build ends in a closed store. */
  lemma FreshBuildIsClosed(h: Node -> Cid, inp: EpochInput, sched: seq<nat>, q: Pool, network: string, threshold: int,
                           gs: seq<Group>)
    requires RunPool(h, inp.blobs, StartPool(|inp.blobs|), sched) == Some(q) && Finished(q)
    requires IsGrouping(Entries(inp.blobs, Results(h, inp.blobs)), gs)
    ensures var rs := Results(h, inp.blobs);
            var root := EpochNodeOf(h, inp, rs, network, threshold, gs);
            var t := Built(h, q.blocks, gs, root, |rs| >= threshold);
            && q.out == Map(rs, (r: BlobResult) => Some(r))
            && LinkClosed(t) && HoldsEpoch(h, t, inp.blobs, root)
  {
    var rs := Results(h, inp.blobs);
    PoolResults(h, inp.blobs, sched);
    assert MetaSet(Entries(inp.blobs, rs)) <= q.blocks.Keys by {
      MetaSets(h, inp.blobs);
    }
    EpochIsClosed(h, q.blocks, inp, rs, network, threshold, gs);
  }

  function Results(h: Node -> Cid, blobs: seq<BlobInput>): seq<BlobResult> {
    seq(|blobs|, i requires 0 <= i < |blobs| => ResultOf(h, blobs[i]))
  }

  // ---------------------------------------------------------------------------------
  // export-car
  // ---------------------------------------------------------------------------------

  /** CIDs reachable from r in at most k links. */
  function Reach(bs: Blocks, r: Cid, k: nat): set<Cid> {
    if k == 0 then {r}
    else
      var p := Reach(bs, r, k - 1);
      p + (set c, l | c in p && c in bs && l in Links(bs[c]) :: l)
  }

  /** The CID list export-car builds from the epoch CID and the epoch's blob rows. */
  function ExportList(root: Cid, rows: seq<BlobResult>): seq<Cid> {
    if rows == [] then [root]
    else
      var r := rows[|rows| - 1];
      ExportList(root, rows[..|rows| - 1]) + [r.dataCid, r.metaCid]
  }

  lemma {:induction false} ExportMembers(root: Cid, rows: seq<BlobResult>, c: Cid)
    ensures c in ExportList(root, rows) <==> c == root || exists r :: r in rows && (c == r.dataCid || c == r.metaCid)
    decreases |rows|
  {
    if rows != [] {
      var n := |rows| - 1;
      ExportMembers(root, rows[..n], c);
      assert rows == rows[..n] + [rows[n]];
    }
  }

  lemma Resolves(h: Node -> Cid, bs: Blocks, n: Node)
    requires CollisionFree(h) && Addressed(h, bs) && h(n) in bs
    ensures bs[h(n)] == n
  {}

  /** A store holding the root and every blob of an epoch. */
  ghost predicate HoldsEpoch(h: Node -> Cid, bs: Blocks, blobs: seq<BlobInput>, root: Node) {
    && Addressed(h, bs) && h(root) in bs
    && (forall i :: 0 <= i < |blobs| ==> DataCid(h, blobs[i]) in bs && h(MetaNode(h, blobs[i])) in bs)
  }

  lemma ReachOne(h: Node -> Cid, bs: Blocks, root: Node)
    requires CollisionFree(h) && Addressed(h, bs) && h(root) in bs
    ensures Reach(bs, h(root), 1) == {h(root)} + Links(root)
  {
    Resolves(h, bs, root);
    var p := Reach(bs, h(root), 0);
    assert p == {h(root)};
  }

  function DataSet(h: Node -> Cid, blobs: seq<BlobInput>): set<Cid> { set b | b in blobs :: DataCid(h, b) }

  function MetasOf(h: Node -> Cid, blobs: seq<BlobInput>): set<Cid> { set b | b in blobs :: h(MetaNode(h, b)) }

  function Everything(h: Node -> Cid, blobs: seq<BlobInput>, root: Node): set<Cid> {
    {h(root)} + MetasOf(h, blobs) + DataSet(h, blobs)
  }

  /** Nothing in an inline epoch links out of it. */
  lemma InlineStays(h: Node -> Cid, bs: Blocks, blobs: seq<BlobInput>, root: Node, c: Cid)
    requires CollisionFree(h) && HoldsEpoch(h, bs, blobs, root) && Links(root) == MetasOf(h, blobs)
    requires c in Everything(h, blobs, root)
    ensures c in bs && Links(bs[c]) <= Everything(h, blobs, root)
  {
    Resolves(h, bs, root);
    BlobsResolve(h, bs, blobs, root);
    if c in MetasOf(h, blobs) {
      var b :| b in blobs && c == h(MetaNode(h, b));
      assert Links(bs[c]) == {DataCid(h, b)};
    } else if c in DataSet(h, blobs) {
      var b :| b in blobs && c == DataCid(h, b);
      assert Links(bs[c]) == {};
    }
  }

  /** From the metadata blocks every raw block is one link away. */
  lemma DataNext(h: Node -> Cid, bs: Blocks, blobs: seq<BlobInput>, root: Node, p: set<Cid>, l: Cid)
    requires CollisionFree(h) && HoldsEpoch(h, bs, blobs, root) && MetasOf(h, blobs) <= p && l in DataSet(h, blobs)
    ensures exists c :: c in p && c in bs && l in Links(bs[c])
  {
    BlobsResolve(h, bs, blobs, root);
    var b :| b in blobs && l == DataCid(h, b);
    var c := h(MetaNode(h, b));
    assert c in MetasOf(h, blobs) && l in Links(bs[c]);
  }

  /** Two links lead from the root of an inline epoch to everything there is below it. */
  lemma {:induction false} InlineReach(h: Node -> Cid, bs: Blocks, blobs: seq<BlobInput>, root: Node, k: nat)
    requires CollisionFree(h) && HoldsEpoch(h, bs, blobs, root) && Links(root) == MetasOf(h, blobs) && 2 <= k
    ensures Reach(bs, h(root), k) == Everything(h, blobs, root)
    decreases k
  {
    var p := Reach(bs, h(root), k - 1);
    if k == 2 {
      ReachOne(h, bs, root);
    } else {
      InlineReach(h, bs, blobs, root, k - 1);
    }
    forall c | c in p
      ensures c in bs && Links(bs[c]) <= Everything(h, blobs, root)
    {
      InlineStays(h, bs, blobs, root, c);
    }
    forall l | l in DataSet(h, blobs)
      ensures exists c :: c in p && c in bs && l in Links(bs[c])
    {
      DataNext(h, bs, blobs, root, p, l);
    }
  }

  lemma BlobsResolve(h: Node -> Cid, bs: Blocks, blobs: seq<BlobInput>, root: Node)
    requires CollisionFree(h) && HoldsEpoch(h, bs, blobs, root)
    ensures forall b :: b in blobs ==> DataCid(h, b) in bs && bs[DataCid(h, b)] == Raw(b.data)
    ensures forall b :: b in blobs ==> h(MetaNode(h, b)) in bs && bs[h(MetaNode(h, b))] == MetaNode(h, b)
  {
    forall b | b in blobs
      ensures DataCid(h, b) in bs && bs[DataCid(h, b)] == Raw(b.data)
      ensures h(MetaNode(h, b)) in bs && bs[h(MetaNode(h, b))] == MetaNode(h, b)
    {
      var i :| 0 <= i < |blobs| && blobs[i] == b;
      Resolves(h, bs, Raw(b.data));
      Resolves(h, bs, MetaNode(h, b));
    }
  }

  lemma {:induction false} ReachGrows(bs: Blocks, r: Cid, k: nat)
    requires 1 <= k
    ensures Reach(bs, r, 1) <= Reach(bs, r, k)
    decreases k
  {
    if k > 1 { ReachGrows(bs, r, k - 1); }
  }

  /** Whatever the index, every block of every blob is at most three links below the root. */
  lemma EveryBlobReached(h: Node -> Cid, bs: Blocks, inp: EpochInput, network: string, threshold: int, gs: seq<Group>,
                         root: Node, b: BlobInput)
    requires CollisionFree(h) && IsGrouping(Entries(inp.blobs, Results(h, inp.blobs)), gs) && LinkClosed(bs)
    requires root == EpochNodeOf(h, inp, Results(h, inp.blobs), network, threshold, gs) && HoldsEpoch(h, bs, inp.blobs, root)
    requires b in inp.blobs
    ensures h(MetaNode(h, b)) in Reach(bs, h(root), 2) && DataCid(h, b) in Reach(bs, h(root), 3)
  {
    var m := h(MetaNode(h, b));
    ReachOne(h, bs, root);
    RootLinks(h, inp, network, threshold, gs, root);
    BlobsResolve(h, bs, inp.blobs, root);
    if |inp.blobs| < threshold {
      assert m in MetasOf(h, inp.blobs);
    } else {
      var n := ShardOfBlob(h, inp, gs, b);
      assert h(n) in Links(root) && h(n) in Reach(bs, h(root), 1);
      Resolves(h, bs, root);
      Resolves(h, bs, n);
    }
    assert m in Reach(bs, h(root), 2);
    assert DataCid(h, b) in Links(bs[m]);
  }

  /** Some shard links to the blob's metadata. */
  lemma ShardOfBlob(h: Node -> Cid, inp: EpochInput, gs: seq<Group>, b: BlobInput) returns (n: Node)
    requires IsGrouping(Entries(inp.blobs, Results(h, inp.blobs)), gs) && b in inp.blobs
    ensures h(n) in ShardCids(h, gs) && h(MetaNode(h, b)) in Links(n)
  {
    var es, c := Entries(inp.blobs, Results(h, inp.blobs)), h(MetaNode(h, b));
    MetaSets(h, inp.blobs);
    assert c in MetasOf(h, inp.blobs);
    GroupMetas(es, gs, c);
    var i :| 0 <= i < |gs| && c in gs[i].metas;
    n := ShardOfGroup(h, gs, i, c);
  }

  lemma ShardOfGroup(h: Node -> Cid, gs: seq<Group>, i: nat, c: Cid) returns (n: Node)
    requires StrictlySorted(gs) && i < |gs| && c in gs[i].metas
    ensures h(n) in ShardCids(h, gs) && c in Links(n)
  {
    ChunkCount(gs);
    var k := i / 256;
    ChunkAt(gs, k);
    ChunkIsRun(gs, k);
    var t := Chunks(gs)[k];
    assert t[i - 256 * k] == gs[i];
    GroupIsListed(t, i - 256 * k, c);
    n := ShardNode(t);
    assert ShardCids(h, gs)[k] == h(n);
  }

  lemma GroupIsListed(t: seq<Group>, j: nat, c: Cid)
    requires (forall i, j :: 0 <= i < j < |t| ==> t[i].hash != t[j].hash) && j < |t| && c in t[j].metas
    ensures c in Listed(IndexOf(t))
  {
    IndexIs(t);
    assert t[j].hash in IndexOf(t) && c in IndexOf(t)[t[j].hash];
  }

  lemma MetaSets(h: Node -> Cid, blobs: seq<BlobInput>)
    ensures MetaSet(Entries(blobs, Results(h, blobs))) == MetasOf(h, blobs)
  {
    var es := Entries(blobs, Results(h, blobs));
    forall b | b in blobs
      ensures h(MetaNode(h, b)) in MetaSet(es)
    {
      var i :| 0 <= i < |blobs| && blobs[i] == b;
      assert es[i].occ.meta == h(MetaNode(h, b)) && es[i] in es;
    }
  }

  lemma ExportSet(h: Node -> Cid, blobs: seq<BlobInput>, rows: seq<BlobResult>, root: Cid, c: Cid)
    requires multiset(rows) == multiset(Results(h, blobs))
    ensures c in ExportList(root, rows) <==> c in {root} + MetasOf(h, blobs) + DataSet(h, blobs)
  {
    var rs := Results(h, blobs);
    SameElements(rows, rs);
    ExportMembers(root, rows, c);
    forall b | b in blobs
      ensures ResultOf(h, b) in rs
    {
      var i :| 0 <= i < |blobs| && blobs[i] == b;
      assert rs[i] == ResultOf(h, b);
    }
  }

  lemma InlineExport(h: Node -> Cid, bs: Blocks, blobs: seq<BlobInput>, root: Node, rows: seq<BlobResult>, k: nat)
    requires CollisionFree(h) && 2 <= k && HoldsEpoch(h, bs, blobs, root) && Links(root) == MetasOf(h, blobs)
    requires multiset(rows) == multiset(Results(h, blobs))
    ensures (set c | c in ExportList(h(root), rows)) == Reach(bs, h(root), k)
  {
    forall c
      ensures c in ExportList(h(root), rows) <==> c in Everything(h, blobs, root)
    {
      ExportSet(h, blobs, rows, h(root), c);
    }
    InlineReach(h, bs, blobs, root, k);
  }

  lemma ShardedExport(h: Node -> Cid, bs: Blocks, blobs: seq<BlobInput>, root: Node, rows: seq<BlobResult>, k: nat, s: Node)
    requires CollisionFree(h) && 2 <= k && Addressed(h, bs) && h(root) in bs
    requires root.EpochNode? && s.Shard? && h(s) in Links(root)
    requires forall r :: r in rows ==> exists b :: b in blobs && r == ResultOf(h, b)
    ensures h(s) in Reach(bs, h(root), k) && h(s) !in ExportList(h(root), rows)
  {
    ReachOne(h, bs, root);
    ReachGrows(bs, h(root), k);
    ExportMembers(h(root), rows, h(s));
  }

  lemma PermutedResults(h: Node -> Cid, blobs: seq<BlobInput>, rows: seq<BlobResult>)
    requires multiset(rows) == multiset(Results(h, blobs))
    ensures forall r :: r in rows ==> exists b :: b in blobs && r == ResultOf(h, b)
  {
    SameElements(rows, Results(h, blobs));
  }

  /** export-car lists exactly what the epoch root reaches if the index is inline or there is
      nothing to index - and only then: the shard blocks of a sharded epoch are not listed. */
  lemma ExportIsComplete(h: Node -> Cid, bs: Blocks, inp: EpochInput, rows: seq<BlobResult>, network: string,
                         threshold: int, gs: seq<Group>, root: Node, k: nat)
    requires CollisionFree(h) && 2 <= k
    requires IsGrouping(Entries(inp.blobs, Results(h, inp.blobs)), gs)
    requires multiset(rows) == multiset(Results(h, inp.blobs))
    requires root == EpochNodeOf(h, inp, Results(h, inp.blobs), network, threshold, gs) && HoldsEpoch(h, bs, inp.blobs, root)
    ensures (set c | c in ExportList(h(root), rows)) == Reach(bs, h(root), k) <==> |inp.blobs| < threshold || inp.blobs == []
  {
    var es := Entries(inp.blobs, Results(h, inp.blobs));
    RootLinks(h, inp, network, threshold, gs, root);
    if |inp.blobs| < threshold || inp.blobs == [] {
      InlineExport(h, bs, inp.blobs, root, rows, k);
    } else {
      var s := FirstShard(h, es, gs);
      PermutedResults(h, inp.blobs, rows);
      ShardedExport(h, bs, inp.blobs, root, rows, k, s);
    }
  }

  lemma RootLinks(h: Node -> Cid, inp: EpochInput, network: string, threshold: int, gs: seq<Group>, root: Node)
    requires IsGrouping(Entries(inp.blobs, Results(h, inp.blobs)), gs)
    requires root == EpochNodeOf(h, inp, Results(h, inp.blobs), network, threshold, gs)
    ensures |inp.blobs| < threshold || inp.blobs == [] ==> Links(root) == MetasOf(h, inp.blobs)
    ensures |inp.blobs| >= threshold ==> Links(root) == set c | c in ShardCids(h, gs)
  {
    var es := Entries(inp.blobs, Results(h, inp.blobs));
    MetaSets(h, inp.blobs);
    IndexLinks(es, gs);
    GroupsComeFromEntries(es, gs);
  }

  lemma GroupsComeFromEntries(es: seq<Entry>, gs: seq<Group>)
    requires IsGrouping(es, gs)
    ensures gs != [] ==> es != []
  {
    if gs != [] {
      assert gs[0] in gs;
      var e :| e in es && e.hash == gs[0].hash;
    }
  }

  lemma FirstShard(h: Node -> Cid, es: seq<Entry>, gs: seq<Group>) returns (s: Node)
    requires IsGrouping(es, gs) && es != []
    ensures s.Shard? && h(s) in ShardCids(h, gs)
  {
    assert es[0] in es;
    var g :| g in gs && g.hash == es[0].hash;
    s := ShardNode(Chunks(gs)[0]);
    assert ShardCids(h, gs)[0] == h(s);
  }
}
