/**
 The paged network root (builder/network.go): epochs sorted by number, cut into pages aligned
 to multiples of the page size, one block per page and a root that links to the pages.
 */
module Network {
  import opened Common
  import opened Ipld
  import opened Lists

  // ---------------------------------------------------------------------------------
  // Decimal keys
  // ---------------------------------------------------------------------------------

  function Digit(d: nat): char
    requires d < 10
  {
    "0123456789"[d]
  }

  /** strconv.FormatUint(n, 10). */
  function Decimal(n: nat): (s: string)
    ensures |s| >= 1 && (|s| == 1 <==> n < 10)
  {
    if n < 10 then [Digit(n)] else Decimal(n / 10) + [Digit(n % 10)]
  }

  /** The number a string of digits stands for. */
  function Value(s: string): int {
    if s == [] then 0 else 10 * Value(s[..|s| - 1]) + (s[|s| - 1] as int - '0' as int)
  }

  /** The key is the decimal numeral: digits only, no leading zero, and it reads as n. */
  lemma {:induction false} DecimalIsNumeral(n: nat)
    ensures Value(Decimal(n)) == n
    ensures forall i :: 0 <= i < |Decimal(n)| ==> '0' <= Decimal(n)[i] <= '9'
    ensures n > 0 ==> Decimal(n)[0] != '0'
    decreases n
  {
    var s := Decimal(n);
    if n < 10 {
      assert Value(s[..0]) == 0;
    } else {
      DecimalIsNumeral(n / 10);
      assert s[..|s| - 1] == Decimal(n / 10);
    }
  }

  lemma DigitInjective(a: nat, b: nat)
    requires a < 10 && b < 10 && Digit(a) == Digit(b)
    ensures a == b
  {}

  /** Different numbers have different keys. */
  lemma {:induction false} DecimalInjective(m: nat, n: nat)
    requires Decimal(m) == Decimal(n)
    ensures m == n
    decreases m
  {
    var s := Decimal(m);
    if m < 10 {
      DigitInjective(m, n);
    } else {
      assert s[..|s| - 1] == Decimal(m / 10) == Decimal(n / 10);
      assert s[|s| - 1] == Digit(m % 10) == Digit(n % 10);
      DecimalInjective(m / 10, n / 10);
      DigitInjective(m % 10, n % 10);
    }
  }

  function Pow10(k: nat): (r: nat)
    ensures r >= 1
  {
    if k == 0 then 1 else 10 * Pow10(k - 1)
  }

  lemma {:induction false} DecimalLength(n: nat, k: nat)
    requires 1 <= k && n < Pow10(k)
    ensures |Decimal(n)| <= k
    decreases k
  {
    if n >= 10 {
      DecimalLength(n / 10, k - 1);
    }
  }

  lemma Uint64Length(n: nat)
    requires n < 0x1_0000_0000_0000_0000
    ensures |Decimal(n)| <= 20
  {
    assert Pow10(5) == 100000;
    assert Pow10(10) == 100000 * 100000;
    assert Pow10(15) == 100000 * 100000 * 100000;
    assert Pow10(20) == 100000 * 100000 * 100000 * 100000;
    DecimalLength(n, 20);
  }

  // ---------------------------------------------------------------------------------
  // Pages
  // ---------------------------------------------------------------------------------

  predicate EpochLeq(a: EpochResult, b: EpochResult) { a.epoch <= b.epoch }

  predicate NatLeq(a: nat, b: nat) { a <= b }

  ghost predicate Distinct(es: seq<EpochResult>) {
    forall i, j :: 0 <= i < j < |es| ==> es[i].epoch != es[j].epoch
  }

  ghost predicate Ascending(es: seq<EpochResult>) {
    forall i, j :: 0 <= i < j < |es| ==> es[i].epoch < es[j].epoch
  }

  function PageStart(e: nat, ps: nat): nat
    requires ps > 0
  {
    (e / ps) * ps
  }

  /** The epochs of one page, in list order. */
  function InPage(es: seq<EpochResult>, start: nat, ps: nat): seq<EpochResult>
    requires ps > 0
  {
    if es == [] then []
    else
      var n := |es| - 1;
      InPage(es[..n], start, ps) + (if PageStart(es[n].epoch, ps) == start then [es[n]] else [])
  }

  /** The map a list of epochs is assembled into. */
  function Keyed(es: seq<EpochResult>): map<string, Cid> {
    if es == [] then map[]
    else var n := |es| - 1; Keyed(es[..n])[Decimal(es[n].epoch) := es[n].cid]
  }

  function PageNode(es: seq<EpochResult>, start: nat, ps: nat): Node
    requires ps > 0
  {
    EpochPage(Keyed(InPage(es, start, ps)))
  }

  /** The root's page map, for pages starting at `starts`. */
  function PageLinks(h: Node -> Cid, es: seq<EpochResult>, starts: seq<nat>, ps: nat): map<string, Cid>
    requires ps > 0
  {
    if starts == [] then map[]
    else
      var n := |starts| - 1;
      PageLinks(h, es, starts[..n], ps)[Decimal(starts[n]) := h(PageNode(es, starts[n], ps))]
  }

  function Latest(es: seq<EpochResult>): nat { if es == [] then 0 else es[|es| - 1].epoch }

  function TotalSize(es: seq<EpochResult>): int {
    if es == [] then 0 else TotalSize(es[..|es| - 1]) + es[|es| - 1].approximateSizeBytes
  }

  function EffectivePageSize(configured: int): nat { if configured < 1000 then 1000 else configured }

  function RootNode(h: Node -> Cid, network: string, es: seq<EpochResult>, starts: seq<nat>, ps: nat): Node
    requires ps > 0
  {
    NetworkRoot(network, ps, Int64(Latest(es)), TotalSize(es), PageLinks(h, es, starts, ps))
  }

  /** The page starts in use. */
  ghost predicate AreStarts(es: seq<EpochResult>, starts: seq<nat>, ps: nat)
    requires ps > 0
  {
    AscendingNats(starts) && forall s :: s in starts <==> exists e :: e in es && PageStart(e.epoch, ps) == s
  }

  lemma {:induction false} InPageMembers(es: seq<EpochResult>, start: nat, ps: nat)
    requires ps > 0
    ensures forall e :: e in InPage(es, start, ps) <==> e in es && PageStart(e.epoch, ps) == start
    decreases |es|
  {
    if es != [] {
      var n := |es| - 1;
      InPageMembers(es[..n], start, ps);
      assert es == es[..n] + [es[n]];
    }
  }

  lemma {:induction false} InPageAscending(es: seq<EpochResult>, start: nat, ps: nat)
    requires ps > 0 && Ascending(es)
    ensures Ascending(InPage(es, start, ps))
    decreases |es|
  {
    if es != [] {
      var n := |es| - 1;
      InPageAscending(es[..n], start, ps);
      InPageMembers(es[..n], start, ps);
      var t := InPage(es[..n], start, ps);
      forall i | 0 <= i < |t|
        ensures t[i].epoch < es[n].epoch
      {
        assert t[i] in es[..n];
      }
    }
  }

  lemma {:induction false} KeyedIs(es: seq<EpochResult>)
    requires Distinct(es)
    ensures forall i :: 0 <= i < |es| ==> Decimal(es[i].epoch) in Keyed(es) && Keyed(es)[Decimal(es[i].epoch)] == es[i].cid
    decreases |es|
  {
    if es != [] {
      var n := |es| - 1;
      KeyedIs(es[..n]);
      forall i | 0 <= i < n
        ensures Decimal(es[i].epoch) != Decimal(es[n].epoch)
      {
        if Decimal(es[i].epoch) == Decimal(es[n].epoch) { DecimalInjective(es[i].epoch, es[n].epoch); }
      }
    }
  }

  lemma {:induction false} KeyedMiss(es: seq<EpochResult>, e: nat)
    requires forall i :: 0 <= i < |es| ==> es[i].epoch != e
    ensures Decimal(e) !in Keyed(es)
    decreases |es|
  {
    if es != [] {
      var n := |es| - 1;
      KeyedMiss(es[..n], e);
      if Decimal(e) == Decimal(es[n].epoch) { DecimalInjective(e, es[n].epoch); }
    }
  }

  lemma {:induction false} LinkIs(h: Node -> Cid, es: seq<EpochResult>, starts: seq<nat>, ps: nat, i: nat)
    requires ps > 0 && AscendingNats(starts) && i < |starts|
    ensures Decimal(starts[i]) in PageLinks(h, es, starts, ps)
    ensures PageLinks(h, es, starts, ps)[Decimal(starts[i])] == h(PageNode(es, starts[i], ps))
    decreases |starts|
  {
    var n := |starts| - 1;
    if i < n {
      LinkIs(h, es, starts[..n], ps, i);
      if Decimal(starts[i]) == Decimal(starts[n]) { DecimalInjective(starts[i], starts[n]); }
    }
  }

  lemma LinksAre(h: Node -> Cid, es: seq<EpochResult>, starts: seq<nat>, ps: nat)
    requires ps > 0 && AscendingNats(starts)
    ensures forall i :: 0 <= i < |starts| ==>
              Decimal(starts[i]) in PageLinks(h, es, starts, ps)
              && PageLinks(h, es, starts, ps)[Decimal(starts[i])] == h(PageNode(es, starts[i], ps))
  {
    forall i | 0 <= i < |starts|
      ensures Decimal(starts[i]) in PageLinks(h, es, starts, ps)
              && PageLinks(h, es, starts, ps)[Decimal(starts[i])] == h(PageNode(es, starts[i], ps))
    {
      LinkIs(h, es, starts, ps, i);
    }
  }

  lemma {:induction false} LinksMiss(h: Node -> Cid, es: seq<EpochResult>, starts: seq<nat>, ps: nat, s: nat)
    requires ps > 0 && s !in starts
    ensures Decimal(s) !in PageLinks(h, es, starts, ps)
    decreases |starts|
  {
    if starts != [] {
      var n := |starts| - 1;
      LinksMiss(h, es, starts[..n], ps, s);
      if Decimal(s) == Decimal(starts[n]) { DecimalInjective(s, starts[n]); }
    }
  }

  // ---------------------------------------------------------------------------------
  // What a reader of the paged root sees
  // ---------------------------------------------------------------------------------

  /** pages[(e / pageSize) * pageSize].epochs[e]. */
  function Lookup(bs: Blocks, root: Node, e: nat): Option<Cid>
    requires root.NetworkRoot? && root.pageSize > 0
  {
    var key := Decimal(PageStart(e, root.pageSize));
    if key !in root.pages || root.pages[key] !in bs then None
    else
      var page := bs[root.pages[key]];
      if page.EpochPage? && Decimal(e) in page.epochs then Some(page.epochs[Decimal(e)]) else None
  }

  ghost predicate PagesStored(h: Node -> Cid, bs: Blocks, es: seq<EpochResult>, starts: seq<nat>, ps: nat)
    requires ps > 0
  {
    forall i :: 0 <= i < |starts| ==>
      h(PageNode(es, starts[i], ps)) in bs && bs[h(PageNode(es, starts[i], ps))] == PageNode(es, starts[i], ps)
  }

  /** The paged root agrees with the flat list: a known epoch is found with its own CID ... */
  lemma LookupKnown(h: Node -> Cid, bs: Blocks, network: string, es: seq<EpochResult>, starts: seq<nat>, ps: nat, i: nat)
    requires ps > 0 && Ascending(es) && AreStarts(es, starts, ps) && PagesStored(h, bs, es, starts, ps) && i < |es|
    ensures Lookup(bs, RootNode(h, network, es, starts, ps), es[i].epoch) == Some(es[i].cid)
  {
    var s := PageStart(es[i].epoch, ps);
    assert es[i] in es;
    assert s in starts;
    var k :| 0 <= k < |starts| && starts[k] == s;
    LinksAre(h, es, starts, ps);
    InPageMembers(es, s, ps);
    InPageAscending(es, s, ps);
    var page := InPage(es, s, ps);
    assert es[i] in page;
    var j :| 0 <= j < |page| && page[j] == es[i];
    KeyedIs(page);
  }

  /** ... and an unknown epoch is not found. */
  lemma LookupUnknown(h: Node -> Cid, bs: Blocks, network: string, es: seq<EpochResult>, starts: seq<nat>, ps: nat, e: nat)
    requires ps > 0 && AreStarts(es, starts, ps) && PagesStored(h, bs, es, starts, ps)
    requires forall i :: 0 <= i < |es| ==> es[i].epoch != e
    ensures Lookup(bs, RootNode(h, network, es, starts, ps), e) == None
  {
    var s := PageStart(e, ps);
    if s in starts {
      var k :| 0 <= k < |starts| && starts[k] == s;
      LinksAre(h, es, starts, ps);
      InPageMembers(es, s, ps);
      var page := InPage(es, s, ps);
      forall j | 0 <= j < |page|
        ensures page[j].epoch != e
      {
        assert page[j] in es;
      }
      KeyedMiss(page, e);
    } else {
      LinksMiss(h, es, starts, ps, s);
    }
  }

  /** A page holds at most `ps` epochs, all from its aligned window. */
  lemma PageWindow(es: seq<EpochResult>, start: nat, ps: nat)
    requires ps > 0 && Ascending(es)
    ensures |InPage(es, start, ps)| <= ps
    ensures forall e :: e in InPage(es, start, ps) ==> start <= e.epoch < start + ps
  {
    var page := InPage(es, start, ps);
    InPageAscending(es, start, ps);
    InPageMembers(es, start, ps);
    forall e | e in page
      ensures start <= e.epoch < start + ps
    {
      assert e.epoch == (e.epoch / ps) * ps + e.epoch % ps;
    }
    if page != [] {
      Climbs(page, |page| - 1);
      assert page[0] in page && page[|page| - 1] in page;
    }
  }

  lemma {:induction false} Climbs(es: seq<EpochResult>, i: nat)
    requires Ascending(es) && i < |es|
    ensures es[0].epoch + i <= es[i].epoch
    decreases i
  {
    if i > 0 { Climbs(es, i - 1); }
  }

  /** latestEpoch is the maximum. */
  lemma LatestIsMax(es: seq<EpochResult>)
    requires Ascending(es)
    ensures forall e :: e in es ==> e.epoch <= Latest(es)
    ensures es != [] ==> exists e :: e in es && e.epoch == Latest(es)
  {
    if es != [] { assert es[|es| - 1] in es; }
  }

  // ---------------------------------------------------------------------------------
  // Input order and stability
  // ---------------------------------------------------------------------------------

  lemma EpochPreorder()
    ensures TotalPreorder(EpochLeq) && TotalPreorder(NatLeq)
  {}

  /** Sorting distinct epochs leaves no choice. */
  lemma SortedAscending(s: seq<EpochResult>, es: seq<EpochResult>)
    requires IsOrdering(s, es, EpochLeq) && Distinct(es)
    ensures Ascending(s)
  {
    DistinctKeys(s, es, (e: EpochResult) => e.epoch);
  }

  predicate EpochLess(a: EpochResult, b: EpochResult) { a.epoch < b.epoch }

  lemma AscendingUnique(a: seq<EpochResult>, b: seq<EpochResult>)
    requires Ascending(a) && Ascending(b) && forall e :: e in a <==> e in b
    ensures a == b
  {
    StrictUnique(a, b, EpochLess);
  }

  lemma NatsUnique(a: seq<nat>, b: seq<nat>)
    requires AscendingNats(a) && AscendingNats(b) && forall e :: e in a <==> e in b
    ensures a == b
  {
    StrictUnique(a, b, (x: nat, y: nat) => x < y);
  }

  /** The root is the same for any input order of distinct epochs. */
  lemma RootUnique(h: Node -> Cid, network: string, es: seq<EpochResult>, fs: seq<EpochResult>, ps: nat,
                   a: seq<EpochResult>, sa: seq<nat>, b: seq<EpochResult>, sb: seq<nat>)
    requires ps > 0 && multiset(es) == multiset(fs) && Distinct(es) && Distinct(fs)
    requires IsOrdering(a, es, EpochLeq) && AreStarts(a, sa, ps)
    requires IsOrdering(b, fs, EpochLeq) && AreStarts(b, sb, ps)
    ensures RootNode(h, network, a, sa, ps) == RootNode(h, network, b, sb, ps)
  {
    SortedAscending(a, es);
    SortedAscending(b, fs);
    SameElements(a, es);
    SameElements(b, fs);
    SameElements(es, fs);
    AscendingUnique(a, b);
    NatsUnique(sa, sb);
  }

  /** A page's block depends on its own window only: lists that agree there - whatever else
      they hold - have the same page. */
  lemma PageStable(a: seq<EpochResult>, b: seq<EpochResult>, start: nat, ps: nat)
    requires ps > 0 && Ascending(a) && Ascending(b)
    requires forall e: EpochResult :: PageStart(e.epoch, ps) == start ==> (e in a <==> e in b)
    ensures PageNode(a, start, ps) == PageNode(b, start, ps)
  {
    InPageMembers(a, start, ps);
    InPageMembers(b, start, ps);
    InPageAscending(a, start, ps);
    InPageAscending(b, start, ps);
    AscendingUnique(InPage(a, start, ps), InPage(b, start, ps));
  }

  /** Appending a new highest epoch rewrites at most the page it falls into. */
  lemma AppendRewritesOnePage(a: seq<EpochResult>, e: EpochResult, start: nat, ps: nat)
    requires ps > 0 && Ascending(a) && (forall x :: x in a ==> x.epoch < e.epoch)
    requires start != PageStart(e.epoch, ps)
    ensures Ascending(a + [e]) && PageNode(a + [e], start, ps) == PageNode(a, start, ps)
  {
    assert forall i :: 0 <= i < |a| ==> a[i] in a;
    PageStable(a, a + [e], start, ps);
  }

  // ---------------------------------------------------------------------------------
  // Block size
  // ---------------------------------------------------------------------------------

  /** Length of a CBOR head with argument n (section 3 of RFC 8949). */
  function Head(n: nat): nat {
    if n < 24 then 1 else if n < 0x100 then 2 else if n < 0x1_0000 then 3 else if n < 0x1_0000_0000 then 5 else 9
  }

  /** How many arguments fit a head with k bytes after the first: k = 0 leaves five bits, of which
      24 values are arguments. */
  function Capacity(k: nat): nat { if k == 0 then 24 else Pow256(k) }

  function Pow256(k: nat): nat { if k == 0 then 1 else 256 * Pow256(k - 1) }

  /** A head has 0, 1, 2, 4 or 8 bytes after the first, and the fewest that hold a 64-bit
      argument (section 4.2.1 of RFC 8949). */
  lemma HeadIsShortest(n: nat, k: nat)
    requires n < 0x1_0000_0000_0000_0000 && k in {0, 1, 2, 4, 8}
    ensures Head(n) - 1 in {0, 1, 2, 4, 8} && n < Capacity(Head(n) - 1)
    ensures n < Capacity(k) ==> Head(n) - 1 <= k
  {
    assert Pow256(1) == 0x100 && Pow256(2) == 0x1_0000;
    assert Pow256(4) == 0x1_0000_0000;
    assert Pow256(6) == 0x1_0000_0000_0000;
    assert Pow256(8) == 0x1_0000_0000_0000_0000;
  }

  function TextSize(n: nat): nat { Head(n) + n }

  /** A link: tag 42 around a byte string of 37 bytes - a zero byte, then a CIDv1 of 36. */
  const LINK_SIZE: nat := Head(42) + Head(37) + 37

  function EntriesSize(es: seq<EpochResult>): nat {
    if es == [] then 0
    else EntriesSize(es[..|es| - 1]) + TextSize(|Decimal(es[|es| - 1].epoch)|) + LINK_SIZE
  }

  /** Encoded length of the page node of these epochs: { "epochs": { key: link, ... } }. */
  function PageBytes(es: seq<EpochResult>): nat {
    Head(1) + TextSize(|"epochs"|) + Head(|es|) + EntriesSize(es)
  }

  lemma {:induction false} EntriesBound(es: seq<EpochResult>)
    requires forall e :: e in es ==> e.epoch < 0x1_0000_0000_0000_0000
    ensures EntriesSize(es) <= 62 * |es|
    decreases |es|
  {
    if es != [] {
      var n := |es| - 1;
      EntriesBound(es[..n]);
      assert es[n] in es;
      Uint64Length(es[n].epoch);
    }
  }

  /** Every page block stays below 2 MiB for every page size up to 33000 - the default is
      10000 - whatever 64-bit epoch numbers it holds. */
  lemma PageFitsBlockLimit(es: seq<EpochResult>, start: nat, ps: nat)
    requires 0 < ps <= 33000 && Ascending(es)
    requires forall e :: e in es ==> e.epoch < 0x1_0000_0000_0000_0000
    ensures PageBytes(InPage(es, start, ps)) < 2 * 1024 * 1024
    ensures ps <= 10000 ==> PageBytes(InPage(es, start, ps)) <= 620011
  {
    PageWindow(es, start, ps);
    InPageMembers(es, start, ps);
    EntriesBound(InPage(es, start, ps));
  }

  lemma {:induction false} DecimalAtLeast(n: nat, k: nat)
    requires 1 <= k && Pow10(k - 1) <= n
    ensures k <= |Decimal(n)|
    decreases k
  {
    if k > 1 {
      assert Pow10(k - 1) == 10 * Pow10(k - 2) && Pow10(k - 2) >= 1;
      DecimalAtLeast(n / 10, k - 1);
    }
  }

  lemma TwentyDigits(n: nat)
    requires Pow10(19) <= n < 0x1_0000_0000_0000_0000
    ensures |Decimal(n)| == 20
  {
    Uint64Length(n);
    DecimalAtLeast(n, 20);
  }

  lemma {:induction false} EntriesExact(es: seq<EpochResult>)
    requires forall e :: e in es ==> Pow10(19) <= e.epoch < 0x1_0000_0000_0000_0000
    ensures EntriesSize(es) == 62 * |es|
    decreases |es|
  {
    if es != [] {
      var n := |es| - 1;
      assert forall e :: e in es[..n] ==> e in es;
      EntriesExact(es[..n]);
      assert es[n] in es;
      TwentyDigits(es[n].epoch);
    }
  }

  /** The bound for the default page size is attained: by a full page of 20-digit epochs. */
  lemma BoundIsAttained(es: seq<EpochResult>)
    requires |es| == 10000 && forall e :: e in es ==> Pow10(19) <= e.epoch < 0x1_0000_0000_0000_0000
    ensures PageBytes(es) == 620011
  {
    EntriesExact(es);
  }

  // ---------------------------------------------------------------------------------
  // The builder
  // ---------------------------------------------------------------------------------

  /** The blocks of the pages starting at `starts`, stored in order. */
  function PutPages(h: Node -> Cid, bs: Blocks, es: seq<EpochResult>, starts: seq<nat>, ps: nat): Blocks
    requires ps > 0
  {
    if starts == [] then bs
    else
      var n := |starts| - 1;
      PutPages(h, bs, es, starts[..n], ps)[h(PageNode(es, starts[n], ps)) := PageNode(es, starts[n], ps)]
  }

  ghost predicate Grouped(es: seq<EpochResult>, pages: map<nat, seq<EpochResult>>, ps: nat)
    requires ps > 0
  {
    && (forall s :: s in pages <==> exists e :: e in es && PageStart(e.epoch, ps) == s)
    && (forall s :: s in pages ==> pages[s] == InPage(es, s, ps))
  }

  method GroupPages(es: seq<EpochResult>, ps: nat) returns (pages: map<nat, seq<EpochResult>>)
    requires ps > 0
    ensures Grouped(es, pages, ps)
  {
    pages := map[];
    for i := 0 to |es|
      invariant Grouped(es[..i], pages, ps)
    {
      var s := PageStart(es[i].epoch, ps);
      GroupedNext(es, i, pages, ps);
      pages := pages[s := (if s in pages then pages[s] else []) + [es[i]]];
    }
    assert es[..|es|] == es;
  }

  lemma {:induction false} InPageNone(es: seq<EpochResult>, start: nat, ps: nat)
    requires ps > 0 && forall e :: e in es ==> PageStart(e.epoch, ps) != start
    ensures InPage(es, start, ps) == []
    decreases |es|
  {
    if es != [] {
      var n := |es| - 1;
      assert es[n] in es;
      assert forall e :: e in es[..n] ==> e in es;
      InPageNone(es[..n], start, ps);
    }
  }

  lemma GroupedNext(es: seq<EpochResult>, i: nat, pages: map<nat, seq<EpochResult>>, ps: nat)
    requires ps > 0 && i < |es| && Grouped(es[..i], pages, ps)
    ensures var s := PageStart(es[i].epoch, ps);
            Grouped(es[..i + 1], pages[s := (if s in pages then pages[s] else []) + [es[i]]], ps)
  {
    var s := PageStart(es[i].epoch, ps);
    var pages' := pages[s := (if s in pages then pages[s] else []) + [es[i]]];
    assert es[..i + 1][..i] == es[..i];
    forall k
      ensures (exists e :: e in es[..i + 1] && PageStart(e.epoch, ps) == k) <==> k in pages'
    {
      StartsNext(es, i, ps, k);
    }
    if s !in pages {
      InPageNone(es[..i], s, ps);
    }
  }

  lemma StartsNext(es: seq<EpochResult>, i: nat, ps: nat, k: nat)
    requires ps > 0 && i < |es|
    ensures (exists e :: e in es[..i + 1] && PageStart(e.epoch, ps) == k)
            <==> PageStart(es[i].epoch, ps) == k || exists e :: e in es[..i] && PageStart(e.epoch, ps) == k
  {
    assert es[..i + 1] == es[..i] + [es[i]];
    assert es[i] in es[..i + 1];
  }

  method SortStarts(keys: set<nat>) returns (starts: seq<nat>)
    ensures AscendingNats(starts) && forall s :: s in starts <==> s in keys
  {
    var left, us: seq<nat> := keys, [];
    while left != {}
      invariant left <= keys
      invariant forall s :: s in us <==> s in keys && s !in left
      invariant NoRepeats(us)
      decreases |left|
    {
      var s :| s in left;
      assert forall i :: 0 <= i < |us| ==> us[i] in us;
      us := us + [s];
      left := left - {s};
    }
    EpochPreorder();
    starts := SortSlice(us, NatLeq);
    SortedNats(starts, us);
  }

  lemma SortedNats(s: seq<nat>, us: seq<nat>)
    requires IsOrdering(s, us, NatLeq) && NoRepeats(us)
    ensures AscendingNats(s) && forall x :: x in s <==> x in us
  {
    SameElements(s, us);
    NoRepeatsPermutes(s, us);
  }

  /** BuildNetworkRoot.  A repeated epoch number is a repeated map key, which the node
      assembler refuses; otherwise the root is RootNode of the sorted list, and the store has
      gained the root and its pages. */
  method BuildNetworkRoot(bs: MemBlockstore, h: Node -> Cid, network: string, epochs: seq<EpochResult>, pageSize: int)
    returns (r: Option<(Cid, nat)>, ghost es: seq<EpochResult>, ghost starts: seq<nat>)
    modifies bs
    ensures r.Some? <==> Distinct(epochs)
    ensures var ps := EffectivePageSize(pageSize);
            && IsOrdering(es, epochs, EpochLeq) && AreStarts(es, starts, ps)
            && (r.Some? ==>
                  var root := RootNode(h, network, es, starts, ps);
                  && r.value == (h(root), |starts|)
                  && bs.blocks == PutPages(h, old(bs.blocks), es, starts, ps)[h(root) := root])
    ensures r.Some? ==> r.value.0 in bs.blocks && DescribesRoot(bs.blocks[r.value.0], network, epochs, pageSize)
  {
    var ps := if pageSize < 1000 then 1000 else pageSize;
    EpochPreorder();
    var sorted := SortSlice(epochs, EpochLeq);
    var latest, total := 0, 0;
    if |sorted| > 0 {
      latest := sorted[|sorted| - 1].epoch;
      total := AddSizes(sorted);
    }
    var pageMap := GroupPages(sorted, ps);
    var pageStarts := SortStarts(pageMap.Keys);
    es, starts := sorted, pageStarts;
    var clash := HasRepeat(sorted);
    SortedDistinct(sorted, epochs);
    if clash { return None, es, starts; }
    var links := StorePages(bs, h, sorted, pageMap, pageStarts, ps);
    var root := NetworkRoot(network, ps, Int64(latest), total, links);
    var c := StoreNode(bs, h, root);
    r := Some((c, |pageStarts|));
    RootIsDescribed(h, network, epochs, pageSize, es, starts);
  }

  /** The fields of a network root, besides what its pages hold. */
  ghost predicate DescribesRoot(root: Node, network: string, epochs: seq<EpochResult>, pageSize: int) {
    && root.NetworkRoot? && root.network == network
    && (pageSize >= 1000 ==> root.pageSize == pageSize) && (pageSize < 1000 ==> root.pageSize == 1000)
    && root.totalSizeBytes == Sum(Map(epochs, SizeOf))
    && (epochs == [] ==> root.latestEpoch == 0)
    && (epochs != [] ==> exists e :: IsHighest(epochs, e) && root.latestEpoch == Int64(e.epoch))
  }

  function SizeOf(e: EpochResult): int { e.approximateSizeBytes }

  ghost predicate IsHighest(epochs: seq<EpochResult>, e: EpochResult) {
    e in epochs && forall x :: x in epochs ==> x.epoch <= e.epoch
  }

  lemma RootIsDescribed(h: Node -> Cid, network: string, epochs: seq<EpochResult>, pageSize: int, es: seq<EpochResult>,
                        starts: seq<nat>)
    requires Distinct(epochs) && IsOrdering(es, epochs, EpochLeq)
    ensures DescribesRoot(RootNode(h, network, es, starts, EffectivePageSize(pageSize)), network, epochs, pageSize)
  {
    SortedAscending(es, epochs);
    SameElements(es, epochs);
    LatestIsMax(es);
    TotalIsSum(es, epochs);
    TotalSizeIs(epochs, SizeOf);
    if epochs != [] {
      assert IsHighest(epochs, es[|es| - 1]);
    }
  }

  /** One block per page, in the order of their starts. */
  method StorePages(bs: MemBlockstore, h: Node -> Cid, ghost es: seq<EpochResult>, pages: map<nat, seq<EpochResult>>,
                    starts: seq<nat>, ps: nat)
    returns (links: map<string, Cid>)
    requires ps > 0 && forall s :: s in starts ==> s in pages && pages[s] == InPage(es, s, ps)
    modifies bs
    ensures links == PageLinks(h, es, starts, ps)
    ensures bs.blocks == PutPages(h, old(bs.blocks), es, starts, ps)
  {
    links := map[];
    for i := 0 to |starts|
      invariant links == PageLinks(h, es, starts[..i], ps)
      invariant bs.blocks == PutPages(h, old(bs.blocks), es, starts[..i], ps)
    {
      var s := starts[i];
      assert s in starts;
      var c := StoreNode(bs, h, EpochPage(Keyed(pages[s])));
      assert starts[..i + 1][..i] == starts[..i];
      links := links[Decimal(s) := c];
    }
    assert starts[..|starts|] == starts;
  }

  method AddSizes(es: seq<EpochResult>) returns (t: int)
    ensures t == TotalSize(es)
  {
    t := 0;
    for i := 0 to |es|
      invariant t == TotalSize(es[..i])
    {
      assert es[..i + 1][..i] == es[..i];
      t := t + es[i].approximateSizeBytes;
    }
    assert es[..|es|] == es;
  }

  /** In a sorted list, equal numbers stand next to each other. */
  method HasRepeat(es: seq<EpochResult>) returns (clash: bool)
    requires SortedBy(es, EpochLeq)
    ensures clash <==> !Ascending(es)
  {
    for i := 0 to |es|
      invariant forall a, b :: 0 <= a < b < i ==> es[a].epoch < es[b].epoch
    {
      if i > 0 && es[i - 1].epoch == es[i].epoch { return true; }
    }
    clash := false;
  }

  lemma SortedDistinct(s: seq<EpochResult>, es: seq<EpochResult>)
    requires IsOrdering(s, es, EpochLeq)
    ensures Ascending(s) <==> Distinct(es)
  {
    if Distinct(es) { SortedAscending(s, es); }
    if Ascending(s) && !Distinct(es) {
      DistinctKeys(es, s, (e: EpochResult) => e.epoch);
    }
  }

  /** With a collision-free hash the store the builder leaves serves every page. */
  lemma {:induction false} PagesAreStored(h: Node -> Cid, bs: Blocks, es: seq<EpochResult>, starts: seq<nat>, ps: nat,
                                          root: Node, k: nat)
    requires CollisionFree(h) && ps > 0 && root.NetworkRoot? && k <= |starts|
    ensures forall i :: 0 <= i < k ==>
              var n, t := PageNode(es, starts[i], ps), PutPages(h, bs, es, starts[..k], ps)[h(root) := root];
              h(n) in t && t[h(n)] == n
    decreases k
  {
    if k > 0 {
      PagesAreStored(h, bs, es, starts, ps, root, k - 1);
      assert starts[..k][..k - 1] == starts[..k - 1];
    }
  }

  /** End to end: in the store BuildNetworkRoot leaves, reading through the pages finds every
      epoch of the input with its CID and no other epoch. */
  lemma PagedRootIsFlatMap(h: Node -> Cid, bs: Blocks, network: string, epochs: seq<EpochResult>, es: seq<EpochResult>,
                           starts: seq<nat>, ps: nat, e: nat)
    requires CollisionFree(h) && ps > 0 && Distinct(epochs)
    requires IsOrdering(es, epochs, EpochLeq) && AreStarts(es, starts, ps)
    ensures var root := RootNode(h, network, es, starts, ps);
            var t := PutPages(h, bs, es, starts, ps)[h(root) := root];
            && (forall r :: r in epochs && r.epoch == e ==> Lookup(t, root, e) == Some(r.cid))
            && ((forall r :: r in epochs ==> r.epoch != e) ==> Lookup(t, root, e) == None)
  {
    var root := RootNode(h, network, es, starts, ps);
    var t := PutPages(h, bs, es, starts, ps)[h(root) := root];
    assert starts[..|starts|] == starts;
    PagesAreStored(h, bs, es, starts, ps, root, |starts|);
    SortedAscending(es, epochs);
    SameElements(es, epochs);
    if i :| 0 <= i < |es| && es[i].epoch == e {
      LookupKnown(h, t, network, es, starts, ps, i);
      assert es[i] in epochs;
    } else {
      LookupUnknown(h, t, network, es, starts, ps, e);
    }
  }

  /** totalSizeBytes is the sum over the input, however it was listed. */
  lemma TotalIsSum(es: seq<EpochResult>, epochs: seq<EpochResult>)
    requires multiset(es) == multiset(epochs)
    ensures TotalSize(es) == TotalSize(epochs)
  {
    var size := (e: EpochResult) => e.approximateSizeBytes;
    MapPermutes(es, epochs, size);
    SumPermutation(Map(es, size), Map(epochs, size));
    TotalSizeIs(es, size);
    TotalSizeIs(epochs, size);
  }

  lemma {:induction false} TotalSizeIs(es: seq<EpochResult>, size: EpochResult -> int)
    requires forall e :: size(e) == e.approximateSizeBytes
    ensures TotalSize(es) == Sum(Map(es, size))
    decreases |es|
  {
    if es != [] {
      var n := |es| - 1;
      TotalSizeIs(es[..n], size);
      assert Map(es, size)[..n] == Map(es[..n], size);
    }
  }
}
