/**
 The epoch DAG (builder/epoch.go): blobs grouped by versioned hash, each group ordered by
 (slot, index), indexed by an inline map or by shards of 256 entries.
 */
module EpochDag {
  import opened Common
  import opened Ipld
  import opened Lists

  /** One occurrence of a blob in the epoch. */
  datatype Occ = Occ(slot: nat, index: int, meta: Cid)

  datatype Entry = Entry(hash: string, occ: Occ)

  datatype Group = Group(hash: string, metas: seq<Cid>)

  predicate OccLeq(a: Occ, b: Occ) {
    a.slot < b.slot || (a.slot == b.slot && a.index <= b.index)
  }

  predicate LexLeq(a: string, b: string) {
    a == [] || (b != [] && (a[0] < b[0] || (a[0] == b[0] && LexLeq(a[1..], b[1..]))))
  }

  /** Byte-wise order: a prefix comes first, otherwise the first difference decides. */
  lemma {:induction false} LexLeqMeans(a: string, b: string)
    ensures LexLeq(a, b) <==> a <= b || exists k :: 0 <= k < |a| && k < |b| && a[..k] == b[..k] && a[k] < b[k]
    decreases |a|
  {
    if a != [] && b != [] && a[0] == b[0] {
      var s, t := a[1..], b[1..];
      LexLeqMeans(s, t);
      assert a == [a[0]] + s && b == [b[0]] + t;
      if k :| 0 <= k < |a| && k < |b| && a[..k] == b[..k] && a[k] < b[k] {
        assert a[..k][1..] == s[..k - 1] && b[..k][1..] == t[..k - 1];
        assert s[k - 1] < t[k - 1];
      }
      if k :| 0 <= k < |s| && k < |t| && s[..k] == t[..k] && s[k] < t[k] {
        assert a[..k + 1] == [a[0]] + s[..k] && b[..k + 1] == [b[0]] + t[..k];
        assert a[k + 1] < b[k + 1];
      }
    } else if a != [] && b != [] && a[0] < b[0] {
      assert a[..0] == b[..0];
    }
  }

  predicate GroupLeq(a: Group, b: Group) { LexLeq(a.hash, b.hash) }

  lemma {:induction false} LexTotal(a: string, b: string)
    ensures LexLeq(a, b) || LexLeq(b, a)
    ensures LexLeq(a, b) && LexLeq(b, a) ==> a == b
    decreases |a|
  {
    if a != [] && b != [] {
      LexTotal(a[1..], b[1..]);
      assert a == [a[0]] + a[1..] && b == [b[0]] + b[1..];
    }
  }

  lemma {:induction false} LexTransitive(a: string, b: string, c: string)
    requires LexLeq(a, b) && LexLeq(b, c)
    ensures LexLeq(a, c)
    decreases |a|
  {
    if a != [] && a[0] == b[0] == c[0] {
      LexTransitive(a[1..], b[1..], c[1..]);
    }
  }

  lemma Preorders()
    ensures TotalPreorder(OccLeq) && TotalPreorder(GroupLeq)
  {
    forall a: Group, b: Group
      ensures GroupLeq(a, b) || GroupLeq(b, a)
    {
      LexTotal(a.hash, b.hash);
    }
    forall a: Group, b: Group, c: Group {:trigger Chain(a, b, c)} | GroupLeq(a, b) && GroupLeq(b, c)
      ensures GroupLeq(a, c)
    {
      LexTransitive(a.hash, b.hash, c.hash);
    }
  }

  function Metas(s: seq<Occ>): (r: seq<Cid>)
    ensures |r| == |s| && forall i :: 0 <= i < |s| ==> r[i] == s[i].meta
  {
    seq(|s|, i requires 0 <= i < |s| => s[i].meta)
  }

  /** Blob i with its result; results beyond the blobs are not looked at. */
  function Entries(blobs: seq<BlobInput>, results: seq<BlobResult>): seq<Entry>
    requires |blobs| <= |results|
  {
    seq(|blobs|, i requires 0 <= i < |blobs| =>
      Entry(blobs[i].versionedHash, Occ(blobs[i].slot, blobs[i].index, results[i].metaCid)))
  }

  /** The occurrences of one versioned hash, in input order. */
  function Filter(es: seq<Entry>, v: string): seq<Occ> {
    if es == [] then []
    else
      var n := |es| - 1;
      Filter(es[..n], v) + (if es[n].hash == v then [es[n].occ] else [])
  }

  ghost predicate Has(es: seq<Entry>, v: string) {
    exists e :: e in es && e.hash == v
  }

  /** A possible list for hash v: the metadata CIDs of some (slot, index) ordering. */
  ghost predicate IsList(es: seq<Entry>, v: string, metas: seq<Cid>) {
    exists p :: IsOrdering(p, Filter(es, v), OccLeq) && metas == Metas(p)
  }

  predicate GroupLess(a: Group, b: Group) { LexLeq(a.hash, b.hash) && a.hash != b.hash }

  lemma LessAsymmetric()
    ensures forall a, b :: GroupLess(a, b) ==> !GroupLess(b, a)
  {
    forall a: Group, b: Group
      ensures GroupLess(a, b) ==> !GroupLess(b, a)
    {
      LexTotal(a.hash, b.hash);
    }
  }

  ghost predicate StrictlySorted(gs: seq<Group>) {
    forall i, j :: 0 <= i < j < |gs| ==> GroupLess(gs[i], gs[j])
  }

  ghost predicate ListsOk(es: seq<Entry>, gs: seq<Group>) {
    forall g :: g in gs ==> Has(es, g.hash) && IsList(es, g.hash, g.metas)
  }

  /** What groupByVersionedHash may return for these entries. */
  ghost predicate IsGrouping(es: seq<Entry>, gs: seq<Group>) {
    && StrictlySorted(gs)
    && ListsOk(es, gs)
    && (forall e :: e in es ==> exists g :: g in gs && g.hash == e.hash)
  }

  /** The multiplicity of an occurrence in a group is that of the entry in the input. */
  lemma {:induction false} FilterCounts(es: seq<Entry>, v: string, o: Occ)
    ensures multiset(Filter(es, v))[o] == multiset(es)[Entry(v, o)]
    decreases |es|
  {
    if es != [] {
      var n := |es| - 1;
      FilterCounts(es[..n], v, o);
      assert es == es[..n] + [es[n]];
    }
  }

  /** The positions of one versioned hash in the input. */
  function Positions(es: seq<Entry>, v: string): seq<nat> {
    if es == [] then []
    else var n := |es| - 1; Positions(es[..n], v) + (if es[n].hash == v then [n] else [])
  }

  lemma {:induction false} PositionIs(es: seq<Entry>, v: string, i: nat)
    ensures i in Positions(es, v) <==> i < |es| && es[i].hash == v
    decreases |es|
  {
    if es != [] { PositionIs(es[..|es| - 1], v, i); }
  }

  lemma {:induction false} PositionsDiffer(es: seq<Entry>, v: string)
    ensures NoRepeats(Positions(es, v))
    decreases |es|
  {
    if es != [] {
      var n := |es| - 1;
      var front := Positions(es[..n], v);
      PositionsDiffer(es[..n], v);
      PositionIs(es[..n], v, n);
      forall i | 0 <= i < |front|
        ensures front[i] != n
      {
        assert front[i] in front;
      }
    }
  }

  lemma {:induction false} FilterIsMap(es: seq<Entry>, v: string, f: nat -> Occ)
    requires forall i :: 0 <= i < |es| ==> f(i) == es[i].occ
    ensures Filter(es, v) == Map(Positions(es, v), f)
    decreases |es|
  {
    if es != [] {
      var n := |es| - 1;
      FilterIsMap(es[..n], v, f);
    }
  }

  /** `at` are the blobs with versioned hash v, each once, in the order of slot and index, and
      metas the metadata CIDs of their results. */
  ghost predicate InSlotOrder(blobs: seq<BlobInput>, results: seq<BlobResult>, v: string, at: seq<nat>, metas: seq<Cid>) {
    && NoRepeats(at) && |metas| == |at|
    && (forall i: nat :: i in at <==> i < |blobs| && blobs[i].versionedHash == v)
    && (forall k :: 0 <= k < |at| ==> at[k] < |blobs| && at[k] < |results| && metas[k] == results[at[k]].metaCid)
    && (forall k, l :: 0 <= k < l < |at| && at[k] < |blobs| && at[l] < |blobs| ==>
          var a, b := blobs[at[k]], blobs[at[l]];
          a.slot < b.slot || (a.slot == b.slot && a.index <= b.index))
  }

  /** A list for hash v is that, for some arrangement of the blobs that have it. */
  lemma ListMeans(blobs: seq<BlobInput>, results: seq<BlobResult>, v: string, metas: seq<Cid>) returns (at: seq<nat>)
    requires |blobs| <= |results| && IsList(Entries(blobs, results), v, metas)
    ensures InSlotOrder(blobs, results, v, at, metas)
  {
    var es := Entries(blobs, results);
    var p :| IsOrdering(p, Filter(es, v), OccLeq) && metas == Metas(p);
    var occ := (i: nat) => if i < |es| then es[i].occ else Occ(0, 0, Cid(0));
    FilterIsMap(es, v, occ);
    at := Unmap(p, Positions(es, v), occ);
    PositionsDiffer(es, v);
    SameElements(at, Positions(es, v));
    NoRepeatsPermutes(at, Positions(es, v));
    forall i: nat
      ensures i in at <==> i < |blobs| && blobs[i].versionedHash == v
    {
      PositionIs(es, v, i);
    }
    Arranged(blobs, results, v, at, p, occ);
  }

  lemma Arranged(blobs: seq<BlobInput>, results: seq<BlobResult>, v: string, at: seq<nat>, p: seq<Occ>, occ: nat -> Occ)
    requires |blobs| <= |results| && NoRepeats(at) && SortedBy(p, OccLeq) && Map(at, occ) == p
    requires forall i: nat :: i in at <==> i < |blobs| && blobs[i].versionedHash == v
    requires forall i :: 0 <= i < |blobs| ==> occ(i) == Occ(blobs[i].slot, blobs[i].index, results[i].metaCid)
    ensures InSlotOrder(blobs, results, v, at, Metas(p))
  {
    forall k | 0 <= k < |at|
      ensures at[k] < |blobs| && p[k] == Occ(blobs[at[k]].slot, blobs[at[k]].index, results[at[k]].metaCid)
    {
      assert at[k] in at;
    }
    forall k, l | 0 <= k < l < |at|
      ensures var a, b := blobs[at[k]], blobs[at[l]]; a.slot < b.slot || (a.slot == b.slot && a.index <= b.index)
    {
      assert OccLeq(p[k], p[l]);
    }
  }

  lemma FilterMembers(es: seq<Entry>, v: string)
    ensures forall o :: o in Filter(es, v) <==> Entry(v, o) in es
  {
    forall o
      ensures o in Filter(es, v) <==> Entry(v, o) in es
    {
      FilterCounts(es, v, o);
      assert o in multiset(Filter(es, v)) <==> Entry(v, o) in multiset(es);
    }
  }

  // ---------------------------------------------------------------------------------
  // Determinism
  // ---------------------------------------------------------------------------------

  /** Occurrences of one hash at the same (slot, index) have the same metadata. */
  ghost predicate Unambiguous(es: seq<Entry>) {
    forall a, b :: a in es && b in es && a.hash == b.hash && a.occ.slot == b.occ.slot && a.occ.index == b.occ.index
      ==> a == b
  }

  lemma FilterPermutes(es: seq<Entry>, fs: seq<Entry>, v: string)
    requires multiset(es) == multiset(fs)
    ensures multiset(Filter(es, v)) == multiset(Filter(fs, v))
  {
    forall o
      ensures multiset(Filter(es, v))[o] == multiset(Filter(fs, v))[o]
    {
      FilterCounts(es, v, o);
      FilterCounts(fs, v, o);
    }
  }

  lemma FilterTieFree(es: seq<Entry>, v: string, p: seq<Occ>)
    requires Unambiguous(es) && multiset(p) == multiset(Filter(es, v))
    ensures TieFree(p, OccLeq)
  {
    FilterMembers(es, v);
    SameElements(p, Filter(es, v));
    forall a, b | a in p && b in p && OccLeq(a, b) && OccLeq(b, a)
      ensures a == b
    {
      assert Entry(v, a) in es && Entry(v, b) in es;
    }
  }

  lemma ListUnique(es: seq<Entry>, fs: seq<Entry>, v: string, m: seq<Cid>, n: seq<Cid>)
    requires multiset(es) == multiset(fs) && Unambiguous(es)
    requires IsList(es, v, m) && IsList(fs, v, n)
    ensures m == n
  {
    var p :| IsOrdering(p, Filter(es, v), OccLeq) && m == Metas(p);
    var q :| IsOrdering(q, Filter(fs, v), OccLeq) && n == Metas(q);
    FilterPermutes(es, fs, v);
    FilterTieFree(es, v, p);
    Preorders();
    OrderingUnique(p, q, OccLeq);
  }

  /** Determinism: however the blobs were listed, the map was iterated and ties were broken,
      the groups are the same. */
  lemma GroupingUnique(es: seq<Entry>, fs: seq<Entry>, a: seq<Group>, b: seq<Group>)
    requires multiset(es) == multiset(fs) && Unambiguous(es)
    requires IsGrouping(es, a) && IsGrouping(fs, b)
    ensures a == b
  {
    SameElements(es, fs);
    forall g | g in a ensures g in b { GroupCarriesOver(es, fs, a, b, g); }
    assert Unambiguous(fs);
    forall g | g in b ensures g in a { GroupCarriesOver(fs, es, b, a, g); }
    LessAsymmetric();
    StrictUnique(a, b, GroupLess);
  }

  lemma GroupCarriesOver(es: seq<Entry>, fs: seq<Entry>, a: seq<Group>, b: seq<Group>, g: Group)
    requires multiset(es) == multiset(fs) && Unambiguous(es)
    requires IsGrouping(es, a) && IsGrouping(fs, b) && g in a
    ensures g in b
  {
    SameElements(es, fs);
    var e :| e in es && e.hash == g.hash;
    var k :| k in b && k.hash == e.hash;
    ListUnique(es, fs, g.hash, g.metas, k.metas);
  }

  /** The condition is exact: if two occurrences of one hash tie but differ, then besides any
      grouping there is another, different one. */
  lemma AmbiguousMeansChoice(es: seq<Entry>, gs: seq<Group>) returns (other: seq<Group>)
    requires IsGrouping(es, gs) && !Unambiguous(es)
    ensures IsGrouping(es, other) && other != gs
  {
    var a, b :| a in es && b in es && a.hash == b.hash && a.occ.slot == b.occ.slot && a.occ.index == b.occ.index && a != b;
    assert exists g :: g in gs && g.hash == a.hash;
    var k :| 0 <= k < |gs| && gs[k].hash == a.hash;
    assert gs[k] in gs;
    var q := OtherList(es, a, b, gs[k].metas);
    other := gs[k := Group(a.hash, Metas(q))];
    assert other[k] != gs[k];
    ReplaceList(es, gs, k, q);
  }

  lemma OtherList(es: seq<Entry>, a: Entry, b: Entry, metas: seq<Cid>) returns (q: seq<Occ>)
    requires a in es && b in es && a.hash == b.hash && a != b
    requires a.occ.slot == b.occ.slot && a.occ.index == b.occ.index
    requires IsList(es, a.hash, metas)
    ensures IsOrdering(q, Filter(es, a.hash), OccLeq) && Metas(q) != metas
  {
    var f := Filter(es, a.hash);
    var p :| IsOrdering(p, f, OccLeq) && metas == Metas(p);
    var i := OccurrenceAt(es, a, p);
    var j := OccurrenceAt(es, b, p);
    q := SwapMetas(p, if i < j then i else j, if i < j then j else i);
  }

  /** An entry has its place in any ordering of its group. */
  lemma OccurrenceAt(es: seq<Entry>, a: Entry, p: seq<Occ>) returns (i: nat)
    requires a in es && multiset(p) == multiset(Filter(es, a.hash))
    ensures i < |p| && p[i] == a.occ
  {
    FilterMembers(es, a.hash);
    SameElements(p, Filter(es, a.hash));
    assert a == Entry(a.hash, a.occ);
    assert a.occ in p;
    i :| 0 <= i < |p| && p[i] == a.occ;
  }

  lemma SwapMetas(p: seq<Occ>, i: nat, j: nat) returns (q: seq<Occ>)
    requires SortedBy(p, OccLeq) && i < j < |p| && OccLeq(p[j], p[i]) && p[i].meta != p[j].meta
    ensures IsOrdering(q, p, OccLeq) && Metas(q) != Metas(p)
  {
    Preorders();
    SwapTies(p, i, j, OccLeq);
    q := p[i := p[j]][j := p[i]];
    assert Metas(q)[i] == p[j].meta && Metas(p)[i] == p[i].meta;
  }

  lemma ReplaceList(es: seq<Entry>, gs: seq<Group>, k: nat, q: seq<Occ>)
    requires IsGrouping(es, gs) && k < |gs| && IsOrdering(q, Filter(es, gs[k].hash), OccLeq)
    ensures IsGrouping(es, gs[k := Group(gs[k].hash, Metas(q))])
  {
    var g := Group(gs[k].hash, Metas(q));
    var hs := gs[k := g];
    assert gs[k] in gs;
    assert IsList(es, g.hash, g.metas);
    SameHashesSorted(gs, hs);
    ListsReplaced(es, gs, k, g);
    SameHashesCover(es, gs, hs);
  }

  lemma ListsReplaced(es: seq<Entry>, gs: seq<Group>, k: nat, h: Group)
    requires ListsOk(es, gs) && k < |gs| && Has(es, h.hash) && IsList(es, h.hash, h.metas)
    ensures ListsOk(es, gs[k := h])
  {
    var hs := gs[k := h];
    forall g | g in hs
      ensures Has(es, g.hash) && IsList(es, g.hash, g.metas)
    {
      var i :| 0 <= i < |hs| && hs[i] == g;
      if i != k { assert gs[i] in gs; }
    }
  }

  lemma SameHashesSorted(gs: seq<Group>, hs: seq<Group>)
    requires StrictlySorted(gs) && |hs| == |gs| && forall i :: 0 <= i < |gs| ==> hs[i].hash == gs[i].hash
    ensures StrictlySorted(hs)
  {
    forall i, j | 0 <= i < j < |hs|
      ensures GroupLess(hs[i], hs[j])
    {
      assert GroupLess(gs[i], gs[j]);
    }
  }

  lemma SameHashesCover(es: seq<Entry>, gs: seq<Group>, hs: seq<Group>)
    requires |hs| == |gs| && forall i :: 0 <= i < |gs| ==> hs[i].hash == gs[i].hash
    requires forall e :: e in es ==> exists g :: g in gs && g.hash == e.hash
    ensures forall e :: e in es ==> exists g :: g in hs && g.hash == e.hash
  {
    forall e | e in es
      ensures exists g :: g in hs && g.hash == e.hash
    {
      var g :| g in gs && g.hash == e.hash;
      var i :| 0 <= i < |gs| && gs[i] == g;
      assert hs[i] in hs;
    }
  }

  // ---------------------------------------------------------------------------------
  // Nothing is lost: the lists together have one link per blob
  // ---------------------------------------------------------------------------------

  function ListLengths(gs: seq<Group>): nat {
    if gs == [] then 0 else |gs[0].metas| + ListLengths(gs[1..])
  }

  function Hashes(gs: seq<Group>): seq<string> {
    seq(|gs|, i requires 0 <= i < |gs| => gs[i].hash)
  }

  function Matching(es: seq<Entry>, vs: seq<string>): nat {
    if vs == [] then 0 else |Filter(es, vs[0])| + Matching(es, vs[1..])
  }

  /** One entry more adds one to exactly one of the distinct keys. */
  lemma {:induction false} MatchingStep(es: seq<Entry>, vs: seq<string>)
    requires es != [] && forall i, j :: 0 <= i < j < |vs| ==> vs[i] != vs[j]
    ensures var n := |es| - 1; Matching(es, vs) == Matching(es[..n], vs) + (if es[n].hash in vs then 1 else 0)
    decreases |vs|
  {
    if vs != [] {
      MatchingStep(es, vs[1..]);
      assert vs == [vs[0]] + vs[1..];
    }
  }

  lemma {:induction false} MatchingAll(es: seq<Entry>, vs: seq<string>)
    requires forall i, j :: 0 <= i < j < |vs| ==> vs[i] != vs[j]
    requires forall e :: e in es ==> e.hash in vs
    ensures Matching(es, vs) == |es|
    decreases |es|, |vs|
  {
    if es == [] {
      if vs != [] { MatchingAll(es, vs[1..]); }
    } else {
      assert es[|es| - 1] in es;
      MatchingStep(es, vs);
      MatchingAll(es[..|es| - 1], vs);
    }
  }

  lemma ListLength(es: seq<Entry>, v: string, metas: seq<Cid>)
    requires IsList(es, v, metas)
    ensures |metas| == |Filter(es, v)|
  {
    var p :| IsOrdering(p, Filter(es, v), OccLeq) && metas == Metas(p);
    SameElements(p, Filter(es, v));
  }

  lemma {:induction false} LengthsMatch(es: seq<Entry>, gs: seq<Group>)
    requires forall i :: 0 <= i < |gs| ==> IsList(es, gs[i].hash, gs[i].metas)
    ensures ListLengths(gs) == Matching(es, Hashes(gs))
    decreases |gs|
  {
    if gs != [] {
      ListLength(es, gs[0].hash, gs[0].metas);
      LengthsMatch(es, gs[1..]);
      assert Hashes(gs)[1..] == Hashes(gs[1..]);
    }
  }

  lemma LengthsAddUp(es: seq<Entry>, gs: seq<Group>)
    requires IsGrouping(es, gs)
    ensures ListLengths(gs) == |es|
  {
    forall e | e in es
      ensures e.hash in Hashes(gs)
    {
      var g :| g in gs && g.hash == e.hash;
      var i :| 0 <= i < |gs| && gs[i] == g;
      assert Hashes(gs)[i] == e.hash;
    }
    MatchingAll(es, Hashes(gs));
    LengthsMatch(es, gs);
  }

  // ---------------------------------------------------------------------------------
  // The two indexes
  // ---------------------------------------------------------------------------------

  function IndexOf(gs: seq<Group>): map<string, seq<Cid>> {
    if gs == [] then map[]
    else IndexOf(gs[..|gs| - 1])[gs[|gs| - 1].hash := gs[|gs| - 1].metas]
  }

  /** The map assembler sees each key once, so the index is just the set of entries. */
  lemma {:induction false} IndexIs(gs: seq<Group>)
    requires forall i, j :: 0 <= i < j < |gs| ==> gs[i].hash != gs[j].hash
    ensures forall v :: v in IndexOf(gs) <==> exists i :: 0 <= i < |gs| && gs[i].hash == v
    ensures forall i :: 0 <= i < |gs| ==> gs[i].hash in IndexOf(gs) && IndexOf(gs)[gs[i].hash] == gs[i].metas
    decreases |gs|
  {
    if gs != [] {
      IndexIs(gs[..|gs| - 1]);
    }
  }

  const SHARD_SIZE := 256

  /** The groups cut into consecutive runs of 256. */
  function Chunks(gs: seq<Group>): seq<seq<Group>>
    decreases |gs|
  {
    if gs == [] then []
    else
      var n := if |gs| < SHARD_SIZE then |gs| else SHARD_SIZE;
      [gs[..n]] + Chunks(gs[n..])
  }

  /** Chunk k is the run starting at 256 k: all are full except possibly the last. */
  lemma {:induction false} ChunkAt(gs: seq<Group>, k: nat)
    requires k < |Chunks(gs)|
    ensures 256 * k < |gs|
    ensures Chunks(gs)[k] == gs[256 * k..if 256 * k + 256 < |gs| then 256 * k + 256 else |gs|]
    decreases |gs|
  {
    if k > 0 {
      var n := if |gs| < SHARD_SIZE then |gs| else SHARD_SIZE;
      ChunkAt(gs[n..], k - 1);
    }
  }

  lemma {:induction false} ChunkCount(gs: seq<Group>)
    ensures |Chunks(gs)| == (|gs| + 255) / 256
    decreases |gs|
  {
    if gs != [] {
      ChunkCount(gs[if |gs| < SHARD_SIZE then |gs| else SHARD_SIZE..]);
    }
  }

  function ShardNode(gs: seq<Group>): Node { Shard(IndexOf(gs)) }

  function ShardCids(h: Node -> Cid, gs: seq<Group>): seq<Cid> {
    seq(|Chunks(gs)|, i requires 0 <= i < |Chunks(gs)| => h(ShardNode(Chunks(gs)[i])))
  }

  /** How a reader finds a hash: the first shard, in order, that has the key. */
  function LookupShards(bs: Blocks, shards: seq<Cid>, v: string): Option<seq<Cid>> {
    if shards == [] then None
    else if shards[0] in bs && bs[shards[0]].Shard? && v in bs[shards[0]].shardEntries
    then Some(bs[shards[0]].shardEntries[v])
    else LookupShards(bs, shards[1..], v)
  }

  function LookupMap(m: map<string, seq<Cid>>, v: string): Option<seq<Cid>> {
    if v in m then Some(m[v]) else None
  }

  ghost predicate ShardsStored(h: Node -> Cid, bs: Blocks, gs: seq<Group>) {
    forall k :: 0 <= k < |Chunks(gs)| ==>
      var n := ShardNode(Chunks(gs)[k]);
      h(n) in bs && bs[h(n)] == n
  }

  lemma ChunksTail(h: Node -> Cid, gs: seq<Group>, n: nat)
    requires gs != [] && n == (if |gs| < SHARD_SIZE then |gs| else SHARD_SIZE)
    ensures ShardCids(h, gs) == [h(ShardNode(gs[..n]))] + ShardCids(h, gs[n..])
  {
    assert Chunks(gs) == [gs[..n]] + Chunks(gs[n..]);
  }

  /** Looking a hash up shard by shard gives what the inline map would. */
  lemma {:induction false} ShardsAgreeWithMap(h: Node -> Cid, bs: Blocks, gs: seq<Group>, v: string)
    requires forall i, j :: 0 <= i < j < |gs| ==> gs[i].hash != gs[j].hash
    requires ShardsStored(h, bs, gs)
    ensures LookupShards(bs, ShardCids(h, gs), v) == LookupMap(IndexOf(gs), v)
    decreases |gs|
  {
    if gs != [] {
      var n := if |gs| < SHARD_SIZE then |gs| else SHARD_SIZE;
      ChunksTail(h, gs, n);
      assert Chunks(gs)[0] == gs[..n];
      assert forall k :: 0 <= k < |Chunks(gs[n..])| ==> Chunks(gs)[k + 1] == Chunks(gs[n..])[k];
      ShardsAgreeWithMap(h, bs, gs[n..], v);
      LookupSplit(gs, n, v);
    }
  }

  lemma LookupHit(gs: seq<Group>, i: nat)
    requires i < |gs| && forall i, j :: 0 <= i < j < |gs| ==> gs[i].hash != gs[j].hash
    ensures LookupMap(IndexOf(gs), gs[i].hash) == Some(gs[i].metas)
  {
    IndexIs(gs);
  }

  lemma {:induction false} LookupMiss(gs: seq<Group>, v: string)
    requires forall i :: 0 <= i < |gs| ==> gs[i].hash != v
    ensures LookupMap(IndexOf(gs), v) == None
    decreases |gs|
  {
    if gs != [] {
      LookupMiss(gs[..|gs| - 1], v);
    }
  }

  lemma LookupSplit(gs: seq<Group>, n: nat, v: string)
    requires n <= |gs| && forall i, j :: 0 <= i < j < |gs| ==> gs[i].hash != gs[j].hash
    ensures LookupMap(IndexOf(gs), v) ==
              (if LookupMap(IndexOf(gs[..n]), v).Some? then LookupMap(IndexOf(gs[..n]), v) else LookupMap(IndexOf(gs[n..]), v))
  {
    if i :| 0 <= i < |gs| && gs[i].hash == v {
      SplitHit(gs, n, i);
    } else {
      LookupMiss(gs, v);
      LookupMiss(gs[..n], v);
      LookupMiss(gs[n..], v);
    }
  }

  lemma SplitHit(gs: seq<Group>, n: nat, i: nat)
    requires n <= |gs| && i < |gs| && forall i, j :: 0 <= i < j < |gs| ==> gs[i].hash != gs[j].hash
    ensures LookupMap(IndexOf(gs), gs[i].hash) == Some(gs[i].metas)
    ensures i < n ==> LookupMap(IndexOf(gs[..n]), gs[i].hash) == Some(gs[i].metas)
    ensures n <= i ==> LookupMap(IndexOf(gs[..n]), gs[i].hash) == None
    ensures n <= i ==> LookupMap(IndexOf(gs[n..]), gs[i].hash) == Some(gs[i].metas)
  {
    LookupHit(gs, i);
    if i < n {
      FrontHit(gs, n, i);
    } else {
      LookupMiss(gs[..n], gs[i].hash);
      BackHit(gs, n, i);
    }
  }

  lemma FrontHit(gs: seq<Group>, n: nat, i: nat)
    requires i < n <= |gs| && forall i, j :: 0 <= i < j < |gs| ==> gs[i].hash != gs[j].hash
    ensures LookupMap(IndexOf(gs[..n]), gs[i].hash) == Some(gs[i].metas)
  {
    var t := gs[..n];
    assert t[i] == gs[i];
    LookupHit(t, i);
  }

  lemma BackHit(gs: seq<Group>, n: nat, i: nat)
    requires n <= i < |gs| && forall i, j :: 0 <= i < j < |gs| ==> gs[i].hash != gs[j].hash
    ensures LookupMap(IndexOf(gs[n..]), gs[i].hash) == Some(gs[i].metas)
  {
    var t := gs[n..];
    assert t[i - n] == gs[i];
    LookupHit(t, i - n);
  }

  /** Both indexes answer with the (slot, index) ordering of the input's occurrences, and with
      nothing for a hash the input does not have. */
  lemma LookupIsSortedFilter(h: Node -> Cid, bs: Blocks, es: seq<Entry>, gs: seq<Group>, v: string)
    requires IsGrouping(es, gs) && ShardsStored(h, bs, gs)
    ensures LookupShards(bs, ShardCids(h, gs), v) == LookupMap(IndexOf(gs), v)
    ensures LookupMap(IndexOf(gs), v).Some? <==> Has(es, v)
    ensures Has(es, v) ==> IsList(es, v, LookupMap(IndexOf(gs), v).value)
  {
    ShardsAgreeWithMap(h, bs, gs, v);
    IndexIs(gs);
    if Has(es, v) {
      var e :| e in es && e.hash == v;
      var g :| g in gs && g.hash == v;
      var i :| 0 <= i < |gs| && gs[i] == g;
      assert gs[i].hash in IndexOf(gs);
    } else {
      assert forall i :: 0 <= i < |gs| ==> gs[i] in gs;
    }
  }

  /** The shape of the shards: ceil(n / 256) of them, none empty, full except possibly the last. */
  lemma ShardShape(gs: seq<Group>)
    ensures |Chunks(gs)| == (|gs| + 255) / 256
    ensures forall i :: 0 <= i < |Chunks(gs)| ==> 1 <= |Chunks(gs)[i]| <= 256
    ensures forall i :: 0 <= i < |Chunks(gs)| - 1 ==> |Chunks(gs)[i]| == 256
  {
    ChunkCount(gs);
    forall i | 0 <= i < |Chunks(gs)|
      ensures 1 <= |Chunks(gs)[i]| <= 256 && (i < |Chunks(gs)| - 1 ==> |Chunks(gs)[i]| == 256)
    {
      ChunkAt(gs, i);
    }
  }

  /** Every key of an earlier shard is strictly below every key of a later one. */
  lemma ShardsAscend(gs: seq<Group>, i: nat, j: nat, a: Group, b: Group)
    requires StrictlySorted(gs) && i < j < |Chunks(gs)| && a in Chunks(gs)[i] && b in Chunks(gs)[j]
    ensures LexLeq(a.hash, b.hash) && a.hash != b.hash
  {
    ChunkCount(gs);
    ChunkAt(gs, i);
    ChunkAt(gs, j);
    var k :| 0 <= k < |Chunks(gs)[i]| && Chunks(gs)[i][k] == a;
    var l :| 0 <= l < |Chunks(gs)[j]| && Chunks(gs)[j][l] == b;
    assert gs[256 * i + k] == a && gs[256 * j + l] == b;
  }

  // ---------------------------------------------------------------------------------
  // The epoch node
  // ---------------------------------------------------------------------------------

  function SumSizes(results: seq<BlobResult>): int {
    if results == [] then 0 else SumSizes(results[..|results| - 1]) + results[|results| - 1].sizeBytes
  }

  function EpochNodeOf(h: Node -> Cid, inp: EpochInput, results: seq<BlobResult>, network: string, threshold: int,
                       gs: seq<Group>): Node
  {
    EpochNode(Int64(inp.epoch), Int64(inp.slot), network, SumSizes(results), |results|,
              if |results| >= threshold then HamtIndex(SHARD_SIZE, ShardCids(h, gs)) else MapIndex(IndexOf(gs)))
  }

  /** The blocks BuildEpochNode adds: the shards it cut, then the epoch node. */
  function PutShards(h: Node -> Cid, bs: Blocks, cs: seq<seq<Group>>): Blocks {
    if cs == [] then bs
    else var n := ShardNode(cs[|cs| - 1]); PutShards(h, bs, cs[..|cs| - 1])[h(n) := n]
  }

  /** The groups of an epoch, for any iteration order of the map and any unstable sort. */
  method GroupByVersionedHash(blobs: seq<BlobInput>, results: seq<BlobResult>) returns (gs: seq<Group>)
    requires |blobs| <= |results|
    ensures IsGrouping(Entries(blobs, results), gs)
  {
    ghost var es := Entries(blobs, results);
    var byHash: map<string, seq<Occ>> := map[];
    for i := 0 to |blobs|
      invariant Buckets(es[..i], byHash)
    {
      var b := blobs[i];
      var o := Occ(b.slot, b.index, results[i].metaCid);
      var sofar := if b.versionedHash in byHash then byHash[b.versionedHash] else [];
      BucketsNext(es, i, byHash);
      byHash := byHash[b.versionedHash := sofar + [o]];
    }
    assert es[..|blobs|] == es;
    gs := OrderBuckets(byHash, es);
  }

  ghost predicate Buckets(es: seq<Entry>, byHash: map<string, seq<Occ>>) {
    && (forall v :: v in byHash <==> Has(es, v))
    && (forall v :: v in byHash ==> byHash[v] == Filter(es, v))
  }

  /** The buckets not in `left` have become groups, one each; `at` says where. */
  ghost predicate Ordered(es: seq<Entry>, hashes: set<string>, left: set<string>, us: seq<Group>, at: map<string, nat>) {
    && (forall i :: 0 <= i < |us| ==> us[i].hash in hashes && us[i].hash !in left && us[i].hash in at && at[us[i].hash] == i)
    && (forall i :: 0 <= i < |us| ==> IsList(es, us[i].hash, us[i].metas))
    && (forall v :: v in hashes && v !in left ==> v in at && at[v] < |us| && us[at[v]].hash == v)
  }

  /** The second loop of groupByVersionedHash: buckets in map order, then sorted by hash. */
  method OrderBuckets(byHash: map<string, seq<Occ>>, ghost es: seq<Entry>) returns (gs: seq<Group>)
    requires Buckets(es, byHash)
    ensures IsGrouping(es, gs)
  {
    var us: seq<Group> := [];
    var left := byHash.Keys;
    ghost var at: map<string, nat> := map[];
    while left != {}
      invariant left <= byHash.Keys
      invariant Ordered(es, byHash.Keys, left, us, at)
      decreases |left|
    {
      var v :| v in left;
      var metas := OrderBucket(byHash[v], es, v);
      OrderedNext(es, byHash.Keys, left, us, at, Group(v, metas));
      at := at[v := |us|];
      us := us + [Group(v, metas)];
      left := left - {v};
    }
    gs := SortGroups(us);
    OrderedAll(es, byHash, us, at);
    SortedGrouping(es, us, gs);
  }

  lemma OrderedNext(es: seq<Entry>, hashes: set<string>, left: set<string>, us: seq<Group>, at: map<string, nat>, g: Group)
    requires Ordered(es, hashes, left, us, at) && g.hash in left && g.hash in hashes && IsList(es, g.hash, g.metas)
    ensures Ordered(es, hashes, left - {g.hash}, us + [g], at[g.hash := |us|])
  {}

  lemma OrderedAll(es: seq<Entry>, byHash: map<string, seq<Occ>>, us: seq<Group>, at: map<string, nat>)
    requires Buckets(es, byHash) && Ordered(es, byHash.Keys, {}, us, at)
    ensures forall g :: g in us ==> Has(es, g.hash) && IsList(es, g.hash, g.metas)
    ensures forall v :: Has(es, v) ==> exists g :: g in us && g.hash == v
    ensures forall i, j :: 0 <= i < j < |us| ==> us[i].hash != us[j].hash
  {
    forall v | Has(es, v)
      ensures exists g :: g in us && g.hash == v
    {
      assert us[at[v]] in us;
    }
  }

  method OrderBucket(occs: seq<Occ>, ghost es: seq<Entry>, ghost v: string) returns (metas: seq<Cid>)
    requires occs == Filter(es, v)
    ensures IsList(es, v, metas)
  {
    Preorders();
    var p := SortSlice(occs, OccLeq);
    metas := Metas(p);
  }

  method SortGroups(us: seq<Group>) returns (gs: seq<Group>)
    ensures IsOrdering(gs, us, GroupLeq)
  {
    Preorders();
    gs := SortSlice(us, GroupLeq);
  }

  lemma BucketsNext(es: seq<Entry>, i: nat, byHash: map<string, seq<Occ>>)
    requires i < |es| && Buckets(es[..i], byHash)
    ensures var v := es[i].hash;
            Buckets(es[..i + 1], byHash[v := (if v in byHash then byHash[v] else []) + [es[i].occ]])
  {
    EntryAdded(es, i);
  }

  lemma EntryAdded(es: seq<Entry>, i: nat)
    requires i < |es|
    ensures forall v :: Has(es[..i + 1], v) <==> Has(es[..i], v) || v == es[i].hash
    ensures forall v :: Filter(es[..i + 1], v) == Filter(es[..i], v) + (if v == es[i].hash then [es[i].occ] else [])
    ensures forall v :: !Has(es[..i], v) ==> Filter(es[..i], v) == []
  {
    assert es[..i + 1] == es[..i] + [es[i]];
    assert es[..i + 1][..i] == es[..i];
    forall v
      ensures Has(es[..i + 1], v) <==> Has(es[..i], v) || v == es[i].hash
      ensures !Has(es[..i], v) ==> Filter(es[..i], v) == []
    {
      if v == es[i].hash { assert es[i] in es[..i + 1]; }
      if !Has(es[..i], v) { FilterNone(es[..i], v); }
    }
  }

  lemma {:induction false} FilterNone(es: seq<Entry>, v: string)
    requires !Has(es, v)
    ensures Filter(es, v) == []
    decreases |es|
  {
    if es != [] {
      assert es[|es| - 1] in es;
      assert forall e :: e in es[..|es| - 1] ==> e in es;
      FilterNone(es[..|es| - 1], v);
    }
  }

  lemma SortedGrouping(es: seq<Entry>, us: seq<Group>, gs: seq<Group>)
    requires IsOrdering(gs, us, GroupLeq)
    requires forall g :: g in us ==> Has(es, g.hash) && IsList(es, g.hash, g.metas)
    requires forall v :: Has(es, v) ==> exists g :: g in us && g.hash == v
    requires forall i, j :: 0 <= i < j < |us| ==> us[i].hash != us[j].hash
    ensures IsGrouping(es, gs)
  {
    SameElements(gs, us);
    DistinctKeys(gs, us, (g: Group) => g.hash);
    forall e | e in es
      ensures exists g :: g in gs && g.hash == e.hash
    {
      assert Has(es, e.hash);
    }
  }

  lemma NextShard(h: Node -> Cid, bs: Blocks, gs: seq<Group>, k: nat)
    requires k < |Chunks(gs)|
    ensures var n := ShardNode(Chunks(gs)[k]);
            && ShardCids(h, gs)[..k + 1] == ShardCids(h, gs)[..k] + [h(n)]
            && PutShards(h, bs, Chunks(gs)[..k + 1]) == PutShards(h, bs, Chunks(gs)[..k])[h(n) := n]
  {
    assert Chunks(gs)[..k + 1][..k] == Chunks(gs)[..k];
  }

  /** Cuts the groups into shards, storing each one. */
  method BuildHamtBlobIndex(bs: MemBlockstore, h: Node -> Cid, gs: seq<Group>) returns (idx: BlobIndex)
    modifies bs
    ensures idx == HamtIndex(SHARD_SIZE, ShardCids(h, gs))
    ensures bs.blocks == PutShards(h, old(bs.blocks), Chunks(gs))
  {
    var cids: seq<Cid> := [];
    var start := 0;
    ChunkCount(gs);
    while start < |gs|
      invariant |cids| <= |Chunks(gs)|
      invariant start == (if |cids| < |Chunks(gs)| then 256 * |cids| else |gs|)
      invariant cids == ShardCids(h, gs)[..|cids|]
      invariant bs.blocks == PutShards(h, old(bs.blocks), Chunks(gs)[..|cids|])
    {
      var end := start + SHARD_SIZE;
      if end > |gs| { end := |gs|; }
      ChunkAt(gs, |cids|);
      NextShard(h, old(bs.blocks), gs, |cids|);
      assert gs[start..end] == Chunks(gs)[|cids|];
      var c := StoreNode(bs, h, ShardNode(gs[start..end]));
      cids := cids + [c];
      start := end;
    }
    assert Chunks(gs)[..|Chunks(gs)|] == Chunks(gs) && ShardCids(h, gs)[..|Chunks(gs)|] == ShardCids(h, gs);
    idx := HamtIndex(SHARD_SIZE, cids);
  }

  /** The fields of an epoch node, besides what its index holds. */
  ghost predicate DescribesEpoch(n: Node, inp: EpochInput, results: seq<BlobResult>, network: string, threshold: int) {
    && n.EpochNode?
    && n.epoch == Int64(inp.epoch) && n.slot == Int64(inp.slot) && n.network == network
    && n.approximateSizeBytes == Sum(Sizes(results)) && n.blobCount == |results|
    && (|results| < threshold ==> n.blobs.MapIndex?)
    && (|results| >= threshold ==> n.blobs.HamtIndex? && n.blobs.shardSize == 256)
  }

  /** BuildEpochNode.  For some grouping of the blobs - the only one, when they are
      unambiguous - the result's CID is that of the epoch node and the store has gained
      exactly the node and, at or above the threshold, its shards. */
  method BuildEpochNode(bs: MemBlockstore, h: Node -> Cid, inp: EpochInput, results: seq<BlobResult>, network: string,
                        threshold: int)
    returns (r: EpochResult, ghost gs: seq<Group>)
    requires |inp.blobs| <= |results|
    modifies bs
    ensures IsGrouping(Entries(inp.blobs, results), gs)
    ensures var n := EpochNodeOf(h, inp, results, network, threshold, gs);
            && r == EpochResult(inp.epoch, h(n), SumSizes(results))
            && bs.blocks == (if |results| >= threshold then PutShards(h, old(bs.blocks), Chunks(gs)) else old(bs.blocks))[h(n) := n]
    ensures r.cid in bs.blocks && DescribesEpoch(bs.blocks[r.cid], inp, results, network, threshold)
    ensures r.epoch == inp.epoch && r.approximateSizeBytes == Sum(Sizes(results))
  {
    var total := 0;
    for i := 0 to |results|
      invariant total == SumSizes(results[..i])
    {
      assert results[..i + 1][..i] == results[..i];
      total := total + results[i].sizeBytes;
    }
    assert results[..|results|] == results;
    var groups := GroupByVersionedHash(inp.blobs, results);
    var idx: BlobIndex;
    if |results| >= threshold {
      idx := BuildHamtBlobIndex(bs, h, groups);
    } else {
      idx := MapIndex(IndexOf(groups));
    }
    var n := EpochNode(Int64(inp.epoch), Int64(inp.slot), network, total, |results|, idx);
    var c := StoreNode(bs, h, n);
    r, gs := EpochResult(inp.epoch, c, total), groups;
    SumSizesIs(results);
  }

  // ---------------------------------------------------------------------------------
  // The node depends only on what is in the epoch
  // ---------------------------------------------------------------------------------

  function Sizes(results: seq<BlobResult>): seq<int> {
    seq(|results|, i requires 0 <= i < |results| => results[i].sizeBytes)
  }

  lemma {:induction false} SumSizesIs(results: seq<BlobResult>)
    ensures SumSizes(results) == Sum(Sizes(results))
    decreases |results|
  {
    if results != [] {
      var n := |results| - 1;
      SumSizesIs(results[..n]);
      assert Sizes(results)[..n] == Sizes(results[..n]);
    }
  }

  /** Same epoch, same occurrences and same sizes - in whatever order, grouped in whatever
      way - make the same epoch node. */
  lemma EpochNodeUnique(h: Node -> Cid, a: EpochInput, ra: seq<BlobResult>, ga: seq<Group>,
                        b: EpochInput, rb: seq<BlobResult>, gb: seq<Group>, network: string, threshold: int)
    requires a.epoch == b.epoch && a.slot == b.slot
    requires |a.blobs| <= |ra| && |b.blobs| <= |rb|
    requires multiset(Entries(a.blobs, ra)) == multiset(Entries(b.blobs, rb))
    requires multiset(Sizes(ra)) == multiset(Sizes(rb))
    requires Unambiguous(Entries(a.blobs, ra))
    requires IsGrouping(Entries(a.blobs, ra), ga) && IsGrouping(Entries(b.blobs, rb), gb)
    ensures EpochNodeOf(h, a, ra, network, threshold, ga) == EpochNodeOf(h, b, rb, network, threshold, gb)
  {
    GroupingUnique(Entries(a.blobs, ra), Entries(b.blobs, rb), ga, gb);
    SumSizesIs(ra);
    SumSizesIs(rb);
    SumPermutation(Sizes(ra), Sizes(rb));
    SameElements(Sizes(ra), Sizes(rb));
  }

  function Zip(blobs: seq<BlobInput>, results: seq<BlobResult>): seq<(BlobInput, BlobResult)>
    requires |blobs| == |results|
  {
    seq(|blobs|, i requires 0 <= i < |blobs| => (blobs[i], results[i]))
  }

  function EntryOf(p: (BlobInput, BlobResult)): Entry {
    Entry(p.0.versionedHash, Occ(p.0.slot, p.0.index, p.1.metaCid))
  }

  /** BuildEpochNode depends only on the multiset of (blob, result) pairs: any common
      permutation of the two lists gives the same node. */
  lemma OrderDoesNotMatter(h: Node -> Cid, a: EpochInput, ra: seq<BlobResult>, ga: seq<Group>,
                           b: EpochInput, rb: seq<BlobResult>, gb: seq<Group>, network: string, threshold: int)
    requires a.epoch == b.epoch && a.slot == b.slot
    requires |a.blobs| == |ra| && |b.blobs| == |rb|
    requires multiset(Zip(a.blobs, ra)) == multiset(Zip(b.blobs, rb))
    requires Unambiguous(Entries(a.blobs, ra))
    requires IsGrouping(Entries(a.blobs, ra), ga) && IsGrouping(Entries(b.blobs, rb), gb)
    ensures EpochNodeOf(h, a, ra, network, threshold, ga) == EpochNodeOf(h, b, rb, network, threshold, gb)
  {
    var za, zb := Zip(a.blobs, ra), Zip(b.blobs, rb);
    var size := (p: (BlobInput, BlobResult)) => p.1.sizeBytes;
    MapPermutes(za, zb, EntryOf);
    MapPermutes(za, zb, size);
    assert Map(za, EntryOf) == Entries(a.blobs, ra) && Map(zb, EntryOf) == Entries(b.blobs, rb);
    assert Map(za, size) == Sizes(ra) && Map(zb, size) == Sizes(rb);
    EpochNodeUnique(h, a, ra, ga, b, rb, gb, network, threshold);
  }
}
