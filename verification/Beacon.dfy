/**
 The beacon client (beacon/client.go): slot-ordered reassembly of parallel fetches, the
 slot arithmetic of epochs, and the backoff after rate-limiting responses.
 */
module Beacon {
  import opened Common
  import opened Ipld
  import opened Lists

  function EpochToFirstSlot(epoch: nat, slotsPerEpoch: nat): nat { (epoch * slotsPerEpoch) % TWO64 }

  function SlotToEpoch(slot: nat, slotsPerEpoch: nat): nat
    requires slotsPerEpoch > 0
  {
    slot / slotsPerEpoch
  }

  /** The i-th slot of an epoch, in 64-bit arithmetic. */
  function SlotAt(epoch: nat, slotsPerEpoch: nat, i: nat): nat {
    (EpochToFirstSlot(epoch, slotsPerEpoch) + i) % TWO64
  }

  /** Every slot of an epoch maps back to it exactly as long as the slot number does not
      overflow 64 bits. */
  lemma SlotBelongsToEpoch(epoch: nat, slotsPerEpoch: nat, i: nat)
    requires 0 < slotsPerEpoch < TWO64 && i < slotsPerEpoch
    ensures SlotToEpoch(SlotAt(epoch, slotsPerEpoch, i), slotsPerEpoch) == epoch <==> epoch * slotsPerEpoch + i < TWO64
  {
    ModAdd(epoch * slotsPerEpoch, i);
    WrappedSlot(epoch * slotsPerEpoch, epoch, slotsPerEpoch, i);
  }

  lemma WrappedSlot(p: nat, epoch: nat, n: nat, i: nat)
    requires p == epoch * n && i < n < TWO64
    ensures ((p + i) % TWO64) / n == epoch <==> p + i < TWO64
  {
    if p + i < TWO64 {
      DivExact(epoch, n, i);
    } else {
      ModBound(p + i);
      DivLess((p + i) % TWO64, n, epoch);
    }
  }

  lemma ModAdd(p: nat, i: nat)
    ensures ((p % TWO64) + i) % TWO64 == (p + i) % TWO64
  {}

  lemma ModBound(x: nat)
    requires x >= TWO64
    ensures x % TWO64 <= x - TWO64
  {}

  lemma MulMonotone(a: nat, b: nat, n: nat)
    requires a <= b
    ensures a * n <= b * n
  {
    assert b * n == a * n + (b - a) * n;
  }

  lemma DivLess(s: nat, n: nat, e: nat)
    requires n > 0 && s < e * n
    ensures s / n < e
  {
    if e <= s / n { MulMonotone(e, s / n, n); }
  }

  lemma DivExact(e: nat, n: nat, i: nat)
    requires i < n
    ensures (e * n + i) / n == e
  {
    var s := e * n + i;
    assert (e + 1) * n == e * n + n;
    DivLess(s, n, e + 1);
    if s / n < e { MulMonotone(s / n + 1, e, n); }
  }

  // ---------------------------------------------------------------------------------
  // FetchEpochInput
  // ---------------------------------------------------------------------------------

  /** One blob sidecar of a slot, with what the execution layer adds to it. */
  datatype Sidecar = Sidecar(commitment: string, versionedHash: string, txHash: string, blockNumber: nat, blockHash: string,
                             index: int, data: seq<Byte>)

  /** What one slot's goroutine ends with: its sidecars, a missed slot (404), or an error. */
  datatype SlotOutcome = Fetched(sidecars: seq<Sidecar>) | Missed | Failed

  /** Size is left at zero: the data is there. */
  function ToBlob(epoch: nat, slot: nat, sc: Sidecar): BlobInput {
    BlobInput(sc.commitment, sc.versionedHash, sc.txHash, sc.blockNumber, sc.blockHash, slot, epoch, sc.index, sc.data, 0)
  }

  function BlobsOf(epoch: nat, slot: nat, o: SlotOutcome): seq<BlobInput> {
    if o.Fetched? then seq(|o.sidecars|, j requires 0 <= j < |o.sidecars| => ToBlob(epoch, slot, o.sidecars[j])) else []
  }

  /** What each slot gives, in slot order. */
  function Sequential(epoch: nat, slotsPerEpoch: nat, os: seq<SlotOutcome>): (r: seq<seq<BlobInput>>)
    ensures |r| == |os|
    ensures forall i :: 0 <= i < |os| ==> r[i] == BlobsOf(epoch, SlotAt(epoch, slotsPerEpoch, i), os[i])
  {
    seq(|os|, i requires 0 <= i < |os| => BlobsOf(epoch, SlotAt(epoch, slotsPerEpoch, i), os[i]))
  }

  /** The sequential reading: slot by slot, missed slots empty. */
  function Concat(epoch: nat, slotsPerEpoch: nat, os: seq<SlotOutcome>): seq<BlobInput> {
    Flatten(Sequential(epoch, slotsPerEpoch, os))
  }

  /** How many sidecars the slots before the i-th delivered. */
  function Before(os: seq<SlotOutcome>, i: nat): nat
    requires i <= |os|
  {
    if i == 0 then 0 else Before(os, i - 1) + (if os[i - 1].Fetched? then |os[i - 1].sidecars| else 0)
  }

  /** A blob is that of a sidecar: all its fields, the slot and epoch it was fetched for, and
      no explicit size. */
  ghost predicate BlobOf(b: BlobInput, sc: Sidecar, epoch: nat, slot: nat) {
    && b.commitment == sc.commitment && b.versionedHash == sc.versionedHash && b.txHash == sc.txHash
    && b.blockNumber == sc.blockNumber && b.blockHash == sc.blockHash && b.index == sc.index && b.data == sc.data
    && b.slot == slot && b.epoch == epoch && b.size == 0
  }

  /** Sidecar j of slot i is where it belongs; `first` is the number of the epoch's first slot. */
  ghost predicate Placed(blobs: seq<BlobInput>, epoch: nat, first: nat, os: seq<SlotOutcome>, i: nat, j: nat)
    requires i < |os| && os[i].Fetched? && j < |os[i].sidecars|
  {
    && Before(os, i) + j < |blobs|
    && BlobOf(blobs[Before(os, i) + j], os[i].sidecars[j], epoch, (first + i) % TWO64)
  }

  /** Every sidecar of every fetched slot is there, in slot order, and nothing else. */
  ghost predicate InOrderOfSlots(blobs: seq<BlobInput>, epoch: nat, first: nat, os: seq<SlotOutcome>) {
    && |blobs| == Before(os, |os|)
    && forall i, j :: 0 <= i < |os| && os[i].Fetched? && 0 <= j < |os[i].sidecars| ==> Placed(blobs, epoch, first, os, i, j)
  }

  lemma {:induction false} BeforeIsOffset(epoch: nat, slotsPerEpoch: nat, os: seq<SlotOutcome>, i: nat)
    requires i <= |os|
    ensures Offset(Sequential(epoch, slotsPerEpoch, os), i) == Before(os, i)
    decreases i
  {
    if i > 0 { BeforeIsOffset(epoch, slotsPerEpoch, os, i - 1); }
  }

  lemma ConcatInOrder(epoch: nat, slotsPerEpoch: nat, first: nat, os: seq<SlotOutcome>)
    requires first == epoch * slotsPerEpoch
    ensures InOrderOfSlots(Concat(epoch, slotsPerEpoch, os), epoch, first, os)
  {
    var ss := Sequential(epoch, slotsPerEpoch, os);
    FlattenLength(ss);
    BeforeIsOffset(epoch, slotsPerEpoch, os, |os|);
    forall i, j | 0 <= i < |os| && os[i].Fetched? && 0 <= j < |os[i].sidecars|
      ensures Placed(Concat(epoch, slotsPerEpoch, os), epoch, first, os, i, j)
    {
      BeforeIsOffset(epoch, slotsPerEpoch, os, i);
      FlattenAt(ss, i, j);
      SlotIs(first, epoch, slotsPerEpoch, i);
    }
  }

  lemma SlotIs(p: nat, epoch: nat, slotsPerEpoch: nat, i: nat)
    requires p == epoch * slotsPerEpoch
    ensures SlotAt(epoch, slotsPerEpoch, i) == (p + i) % TWO64
  {
    ModAdd(p, i);
  }

  /** Every blob of the epoch comes from one of its slots. */
  lemma BlobComesFromSlot(epoch: nat, slotsPerEpoch: nat, os: seq<SlotOutcome>, b: BlobInput)
    requires b in Concat(epoch, slotsPerEpoch, os)
    ensures exists i, sc ::
              0 <= i < |os| && os[i].Fetched? && sc in os[i].sidecars && b == ToBlob(epoch, SlotAt(epoch, slotsPerEpoch, i), sc)
  {
    var i := FlattenMember(Sequential(epoch, slotsPerEpoch, os), b);
    var slot := SlotAt(epoch, slotsPerEpoch, i);
    assert b in BlobsOf(epoch, slot, os[i]);
    var j :| 0 <= j < |os[i].sidecars| && b == ToBlob(epoch, slot, os[i].sidecars[j]);
    assert os[i].sidecars[j] in os[i].sidecars;
  }

  /** The fetched blobs belong to the epoch: as long as its slots fit 64 bits each one's slot
      maps back to it. */
  lemma FetchedBlobsBelong(epoch: nat, slotsPerEpoch: nat, os: seq<SlotOutcome>, b: BlobInput)
    requires 0 < slotsPerEpoch < TWO64 && |os| == slotsPerEpoch && b in Concat(epoch, slotsPerEpoch, os)
    requires epoch * slotsPerEpoch + slotsPerEpoch <= TWO64
    ensures b.epoch == epoch && b.size == 0 && SlotToEpoch(b.slot, slotsPerEpoch) == epoch
    ensures epoch * slotsPerEpoch <= b.slot < epoch * slotsPerEpoch + slotsPerEpoch
  {
    var i := SlotOfBlob(epoch, slotsPerEpoch, os, b);
    SlotInRange(epoch * slotsPerEpoch, epoch, slotsPerEpoch, i);
  }

  lemma SlotOfBlob(epoch: nat, slotsPerEpoch: nat, os: seq<SlotOutcome>, b: BlobInput) returns (i: nat)
    requires b in Concat(epoch, slotsPerEpoch, os)
    ensures i < |os| && b.slot == SlotAt(epoch, slotsPerEpoch, i) && b.epoch == epoch && b.size == 0
  {
    BlobComesFromSlot(epoch, slotsPerEpoch, os, b);
    var sc;
    i, sc :| 0 <= i < |os| && os[i].Fetched? && sc in os[i].sidecars && b == ToBlob(epoch, SlotAt(epoch, slotsPerEpoch, i), sc);
  }

  lemma SlotInRange(p: nat, epoch: nat, n: nat, i: nat)
    requires p == epoch * n && i < n && p + n <= TWO64
    ensures SlotAt(epoch, n, i) == p + i && SlotToEpoch(p + i, n) == epoch
  {
    DivExact(epoch, n, i);
  }

  /** `order` is the order in which the goroutines finish: each slot once. */
  ghost predicate CompletionOrder(order: seq<nat>, n: nat) {
    && |order| == n
    && (forall i :: 0 <= i < |order| ==> order[i] < n)
    && (forall i, j :: 0 <= i < j < |order| ==> order[i] != order[j])
  }

  function Finished(order: seq<nat>): (s: set<nat>)
    ensures |s| <= |order| && forall x :: x in s <==> x in order
  {
    if order == [] then {}
    else assert order == order[..|order| - 1] + [order[|order| - 1]]; Finished(order[..|order| - 1]) + {order[|order| - 1]}
  }

  lemma {:induction false} FinishedSize(order: seq<nat>)
    requires forall i, j :: 0 <= i < j < |order| ==> order[i] != order[j]
    ensures |Finished(order)| == |order|
    decreases |order|
  {
    if order != [] {
      var n := |order| - 1;
      FinishedSize(order[..n]);
      assert order[n] !in order[..n];
    }
  }

  lemma EverySlotFinishes(order: seq<nat>, n: nat, x: nat)
    requires CompletionOrder(order, n) && x < n
    ensures x in order
  {
    var all, got := Below(n), Finished(order);
    FinishedSize(order);
    assert got <= all;
    assert |all| == |got| + |all - got|;
    assert all - got == {};
  }

  /** Each goroutine writes its own entry of slotBlobs; the result is the sequential one for
      every completion order, and an error exactly when some slot failed. */
  method FetchEpochInput(epoch: nat, slotsPerEpoch: nat, outcomes: seq<SlotOutcome>, order: seq<nat>)
    returns (r: Option<EpochInput>)
    requires |outcomes| == slotsPerEpoch && CompletionOrder(order, slotsPerEpoch)
    ensures r.None? <==> Failed in outcomes
    ensures r.Some? ==>
              r.value == EpochInput(epoch, EpochToFirstSlot(epoch, slotsPerEpoch), Concat(epoch, slotsPerEpoch, outcomes))
    ensures r.Some? ==>
              && r.value.epoch == epoch && r.value.slot == (epoch * slotsPerEpoch) % TWO64
              && InOrderOfSlots(r.value.blobs, epoch, epoch * slotsPerEpoch, outcomes)
  {
    var slotBlobs, failed := RunFetches(epoch, slotsPerEpoch, outcomes, order);
    assert failed <==> Failed in outcomes;
    if failed { return None; }
    var all := Reassemble(slotBlobs);
    ConcatInOrder(epoch, slotsPerEpoch, epoch * slotsPerEpoch, outcomes);
    r := Some(EpochInput(epoch, EpochToFirstSlot(epoch, slotsPerEpoch), all));
  }

  /** The goroutines, each filling the entry of its own slot. */
  method RunFetches(epoch: nat, slotsPerEpoch: nat, outcomes: seq<SlotOutcome>, order: seq<nat>)
    returns (slotBlobs: seq<seq<BlobInput>>, failed: bool)
    requires |outcomes| == slotsPerEpoch && CompletionOrder(order, slotsPerEpoch)
    ensures slotBlobs == Sequential(epoch, slotsPerEpoch, outcomes)
    ensures failed <==> exists i :: 0 <= i < slotsPerEpoch && outcomes[i].Failed?
  {
    var n := slotsPerEpoch;
    var cells := new seq<BlobInput>[n](i => []);
    failed := false;
    ghost var want := Sequential(epoch, slotsPerEpoch, outcomes);
    ghost var done: set<nat> := {};
    for k := 0 to n
      invariant forall j :: 0 <= j < k ==> order[j] in done
      invariant forall i :: i in done ==> i < n
      invariant failed <==> AnyFailed(outcomes, done)
      invariant Filled(cells[..], want, done)
    {
      var i := order[k];
      FailedNext(outcomes, done, i);
      FilledNext(cells[..], want, done, i);
      done := done + {i};
      if outcomes[i].Fetched? {
        cells[i] := FetchSlot(epoch, SlotAt(epoch, slotsPerEpoch, i), outcomes[i].sidecars);
      } else if outcomes[i].Failed? {
        failed := true;
      }
    }
    forall i | 0 <= i < n ensures i in done { EverySlotFinishes(order, n, i); }
    FailedAll(outcomes, done);
    slotBlobs := cells[..];
  }

  /** The entries of the finished slots are what is wanted, the others empty. */
  ghost predicate Filled(cells: seq<seq<BlobInput>>, want: seq<seq<BlobInput>>, done: set<nat>) {
    |cells| == |want| && forall i :: 0 <= i < |cells| ==> cells[i] == if i in done then want[i] else []
  }

  lemma FilledNext(cells: seq<seq<BlobInput>>, want: seq<seq<BlobInput>>, done: set<nat>, i: nat)
    requires Filled(cells, want, done) && i < |cells|
    ensures Filled(cells[i := want[i]], want, done + {i})
    ensures want[i] == [] ==> Filled(cells, want, done + {i})
  {}

  lemma FailedAll(outcomes: seq<SlotOutcome>, done: set<nat>)
    requires forall i :: 0 <= i < |outcomes| ==> i in done
    ensures AnyFailed(outcomes, done) <==> exists i :: 0 <= i < |outcomes| && outcomes[i].Failed?
  {
    if i :| 0 <= i < |outcomes| && outcomes[i].Failed? {
      assert i in done;
    }
  }

  ghost predicate AnyFailed(outcomes: seq<SlotOutcome>, done: set<nat>) {
    exists i :: i in done && i < |outcomes| && outcomes[i].Failed?
  }

  lemma FailedNext(outcomes: seq<SlotOutcome>, done: set<nat>, i: nat)
    requires i < |outcomes|
    ensures AnyFailed(outcomes, done + {i}) <==> AnyFailed(outcomes, done) || outcomes[i].Failed?
  {
    if j :| j in done && j < |outcomes| && outcomes[j].Failed? {
      assert j in done + {i};
    }
    if outcomes[i].Failed? {
      assert i in done + {i};
    }
  }

  method FetchSlot(epoch: nat, slot: nat, sidecars: seq<Sidecar>) returns (blobs: seq<BlobInput>)
    ensures blobs == BlobsOf(epoch, slot, Fetched(sidecars))
  {
    blobs := [];
    for j := 0 to |sidecars|
      invariant |blobs| == j && forall k :: 0 <= k < j ==> blobs[k] == ToBlob(epoch, slot, sidecars[k])
    {
      blobs := blobs + [ToBlob(epoch, slot, sidecars[j])];
    }
  }

  /** The closing loop: the entries in slot order. */
  method Reassemble(slotBlobs: seq<seq<BlobInput>>) returns (all: seq<BlobInput>)
    ensures all == Flatten(slotBlobs)
  {
    all := [];
    for i := 0 to |slotBlobs|
      invariant all == Flatten(slotBlobs[..i])
    {
      assert slotBlobs[..i + 1][..i] == slotBlobs[..i];
      all := all + slotBlobs[i];
    }
    assert slotBlobs[..|slotBlobs|] == slotBlobs;
  }

  // ---------------------------------------------------------------------------------
  // Backoff
  // ---------------------------------------------------------------------------------

  /** 60 s in nanoseconds. */
  const CAP: nat := 60_000_000_000

  /** The counters of the client and, as history, the requests counted but not yet settled. */
  datatype Limiter = Limiter(base: nat, backoff: nat, requests: nat, hits: nat, open: nat)

  function NewLimiter(base: nat): Limiter { Limiter(base, 0, 0, 0, 0) }

  /** Critical sections of `get`, interleaved over all requests: count a response, then settle
      it - a 404 leaves the backoff alone, a 429 raises it, anything else clears it.  A
      transport error or a cancelled wait enters neither section. */
  datatype Response = Count | NotFound | TooMany | Other

  predicate CanSettle(l: Limiter, r: Response) { r.Count? || l.open > 0 }

  function Settle(l: Limiter, r: Response): Limiter
    requires CanSettle(l, r)
  {
    match r
    case Count => l.(requests := l.requests + 1, open := l.open + 1)
    case NotFound => l.(open := l.open - 1)
    case TooMany =>
      var b := if l.backoff == 0 then l.base else if l.backoff * 2 > CAP then CAP else l.backoff * 2;
      l.(open := l.open - 1, hits := l.hits + 1, backoff := b)
    case Other => l.(open := l.open - 1, backoff := 0)
  }

  function Replay(l: Limiter, rs: seq<Response>): Option<Limiter>
    decreases |rs|
  {
    if rs == [] then Some(l)
    else if !CanSettle(l, rs[0]) then None
    else Replay(Settle(l, rs[0]), rs[1..])
  }

  function Pow2(k: nat): nat { if k == 0 then 1 else 2 * Pow2(k - 1) }

  /** The k-th consecutive 429 backs off for base * 2^(k-1), capped - except that the very
      first back-off is the base itself even when the base exceeds the cap. */
  function Expected(base: nat, k: nat): nat {
    if k == 0 then 0
    else if k == 1 then base
    else if base * Pow2(k - 1) > CAP then CAP else base * Pow2(k - 1)
  }

  /** The 429s after the last resetting response: 404s and countings in between do not matter. */
  function Streak(rs: seq<Response>): nat {
    if rs == [] || rs[|rs| - 1].Other? then 0
    else Streak(rs[..|rs| - 1]) + (if rs[|rs| - 1].TooMany? then 1 else 0)
  }

  /** What the responses so far have made of the limiter. */
  ghost predicate Follows(base: nat, l: Limiter, past: seq<Response>) {
    && l.base == base && l.backoff == Expected(base, Streak(past))
    && l.requests == multiset(past)[Count] && l.hits == multiset(past)[TooMany]
    && l.hits + l.open <= l.requests
  }

  lemma Doubling(base: nat, k: nat)
    requires base > 0 && k >= 1
    ensures base * Pow2(k) == 2 * (base * Pow2(k - 1)) && base * Pow2(k - 1) >= 1
  {
    PowPositive(k - 1);
    assert Pow2(k) == 2 * Pow2(k - 1);
  }

  lemma {:induction false} PowPositive(k: nat)
    ensures Pow2(k) >= 1
  {
    if k > 0 { PowPositive(k - 1); }
  }

  /** One 429 more. */
  lemma ExpectedNext(base: nat, k: nat)
    requires base > 0
    ensures var b := Expected(base, k);
            Expected(base, k + 1) == if b == 0 then base else if b * 2 > CAP then CAP else b * 2
  {
    if k >= 1 {
      Doubling(base, k);
      if k >= 2 { Doubling(base, k - 1); }
    }
  }

  lemma SettleFollows(base: nat, l: Limiter, past: seq<Response>, r: Response)
    requires base > 0 && Follows(base, l, past) && CanSettle(l, r)
    ensures Follows(base, Settle(l, r), past + [r])
  {
    var rs := past + [r];
    assert rs[..|rs| - 1] == past && rs[|rs| - 1] == r;
    if r.TooMany? { ExpectedNext(base, Streak(past)); }
  }

  lemma {:induction false} ReplayFollows(base: nat, l: Limiter, past: seq<Response>, rs: seq<Response>)
    requires base > 0 && Follows(base, l, past) && Replay(l, rs).Some?
    ensures Follows(base, Replay(l, rs).value, past + rs)
    decreases |rs|
  {
    if rs == [] {
      assert past + rs == past;
    } else {
      SettleFollows(base, l, past, rs[0]);
      ReplayFollows(base, Settle(l, rs[0]), past + [rs[0]], rs[1..]);
      assert past + [rs[0]] + rs[1..] == past + rs;
    }
  }

  /** After any interleaving of responses the backoff is a function of the 429s since the last
      resetting response, the counters are the numbers of responses and of 429s, and there are
      never more of these. */
  lemma BackoffFormula(base: nat, rs: seq<Response>)
    requires base > 0 && Replay(NewLimiter(base), rs).Some?
    ensures var m := Replay(NewLimiter(base), rs).value;
            && m.backoff == Expected(base, Streak(rs))
            && m.requests == multiset(rs)[Count] && m.hits == multiset(rs)[TooMany] && m.hits <= m.requests
  {
    ReplayFollows(base, NewLimiter(base), [], rs);
    assert [] + rs == rs;
  }

  /** With a base of at most the cap the formula is min(base * 2^(k-1), cap) throughout. */
  lemma BackoffCapped(base: nat, k: nat)
    requires 0 < base <= CAP && k >= 1
    ensures var cap := 60 * 1_000_000_000; Expected(base, k) == if base * Pow2(k - 1) > cap then cap else base * Pow2(k - 1)
    ensures Expected(base, k) <= 60 * 1_000_000_000
  {
    assert k == 1 ==> base * Pow2(0) == base;
  }
}
