/**
 Where the jobs that reach the consumer come from, and how full the channels get: statements
 about schedules rather than states of the backfill pipeline.
 */
module Delivery {
  import opened Common
  import opened Lists
  import opened Pipeline
  import opened StuckSchedules

  // ---------------------------------------------------------------------------------
  // Every job is what a worker reported
  // ---------------------------------------------------------------------------------

  /** At position n of the schedule a worker that had epoch e in hand reported the outcome: what
      the build returned, that a row was there, or a failure. */
  ghost predicate Reported(c: Config, o: Snap, run: seq<Action>, n: nat, e: nat, out: Outcome) {
    && n < |run| && Exec(c, o, run[..n]).Some? && run[n].Work?
    && var y, i, w := Exec(c, o, run[..n]).value, run[n].i, run[n].w;
       && i < |y.s.workers|
       && match out
          case Built(be) => y.s.workers[i] == Building(e) && w == WBuilt(be.payload) && be.epoch == e
          case Skipped => y.s.workers[i] == Checking(e) && w == WSkip && e in y.d.rows
          case Failed => (y.s.workers[i] == Checking(e) || y.s.workers[i] == Building(e)) && w == WFail
  }

  ghost predicate HasReport(c: Config, o: Snap, run: seq<Action>, e: nat, out: Outcome) {
    exists n: nat :: Reported(c, o, run, n, e, out)
  }

  /** A schedule is its front and one action. */
  lemma {:induction false} ExecFront(c: Config, o: Snap, run: seq<Action>)
    requires run != [] && Exec(c, o, run).Some?
    ensures var n := |run| - 1;
            && Exec(c, o, run[..n]).Some?
            && var y := Exec(c, o, run[..n]).value;
               Enabled(c, y.d, y.s, run[n]) && Exec(c, o, run) == Some(Step(c, y, run[n]))
    decreases |run|
  {
    var n := |run| - 1;
    if n > 0 {
      ExecFront(c, Step(c, o, run[0]), run[1..]);
      assert run[1..][..n - 1] == run[..n][1..];
    }
  }

  lemma ReportStays(c: Config, o: Snap, run: seq<Action>, k: nat, e: nat, out: Outcome)
    requires k <= |run| && HasReport(c, o, run[..k], e, out)
    ensures HasReport(c, o, run, e, out)
  {
    var n: nat :| Reported(c, o, run[..k], n, e, out);
    assert run[..k][..n] == run[..n];
    assert Reported(c, o, run, n, e, out);
  }

  /** A step records an outcome only by a worker's report. */
  lemma BuiltStep(c: Config, d: Db, s: State, a: Action, e: nat)
    requires Enabled(c, d, s, a) && e in After(c, d, s, a).built
    requires !(e in s.built && After(c, d, s, a).built[e] == s.built[e])
    ensures a.Work? && a.i < |s.workers|
    ensures var w := s.workers[a.i];
            match After(c, d, s, a).built[e]
            case Built(be) => w == Building(e) && a.w == WBuilt(be.payload) && be.epoch == e
            case Skipped => w == Checking(e) && a.w == WSkip && e in d.rows
            case Failed => (w == Checking(e) || w == Building(e)) && a.w == WFail
  {
    match a
    case Dispatch(m) => DispatcherFrame(s, m);
    case Collect(m) => CollectorFrame(c, s, m);
    case Consume(m) => ConsumerFrame(d, s, m);
    case Work(i, m) => WorkerReports(c, d, s, i, m, e);
    case _ =>
  }

  lemma WorkerReports(c: Config, d: Db, s: State, i: nat, m: WorkerMove, e: nat)
    requires CanWork(c, d.rows, s, i, m) && e in Worked(c, d.rows, s, i, m).built
    requires !(e in s.built && Worked(c, d.rows, s, i, m).built[e] == s.built[e])
    ensures var w := s.workers[i];
            match Worked(c, d.rows, s, i, m).built[e]
            case Built(be) => w == Building(e) && m == WBuilt(be.payload) && be.epoch == e
            case Skipped => w == Checking(e) && m == WSkip && e in d.rows
            case Failed => (w == Checking(e) || w == Building(e)) && m == WFail
  {}

  lemma {:induction false} BuiltIsReported(c: Config, o: Snap, run: seq<Action>, e: nat)
    requires o.s.built == map[] && Exec(c, o, run).Some? && e in Exec(c, o, run).value.s.built
    ensures HasReport(c, o, run, e, Exec(c, o, run).value.s.built[e])
    decreases |run|
  {
    if run != [] {
      var n := |run| - 1;
      ExecFront(c, o, run);
      var y, x := Exec(c, o, run[..n]).value, Exec(c, o, run).value;
      if e in y.s.built && x.s.built[e] == y.s.built[e] {
        BuiltIsReported(c, o, run[..n], e);
        ReportStays(c, o, run, n, e, x.s.built[e]);
      } else {
        BuiltStep(c, y.d, y.s, run[n], e);
        assert Reported(c, o, run, n, e, x.s.built[e]);
      }
    }
  }

  /** For every schedule, the k-th job sent to the consumer is that of epoch from + k and carries
      what a worker reported at some point of the schedule with that epoch in hand: if it is a
      built epoch, exactly what that build returned. */
  lemma DeliveredAsReported(c: Config, d: Db, run: seq<Action>, k: nat)
    requires c.Valid() && Exec(c, Start(c, d), run).Some? && k < |Exec(c, Start(c, d), run).value.s.pending|
    ensures var j := Exec(c, Start(c, d), run).value.s.pending[k];
            j.epoch == c.from + k && HasReport(c, Start(c, d), run, c.from + k, j.outcome)
  {
    OwnJob(c, d, run, k);
    BuiltIsReported(c, Start(c, d), run, c.from + k);
  }

  lemma OwnJob(c: Config, d: Db, run: seq<Action>, k: nat)
    requires c.Valid() && Exec(c, Start(c, d), run).Some? && k < |Exec(c, Start(c, d), run).value.s.pending|
    ensures var x := Exec(c, Start(c, d), run).value; Own(x.s.built, c.from + k, x.s.pending[k])
  {
    var x := Exec(c, Start(c, d), run).value;
    assert Reachable(c, d, x);
    ReachableInv(c, d, x);
  }

  // ---------------------------------------------------------------------------------
  // The capacities of the channels
  // ---------------------------------------------------------------------------------

  function Min(a: int, b: int): int { if a < b then a else b }

  lemma {:induction false} SendMany(c: Config, d: Db, n: nat) returns (x: Snap)
    requires c.Valid() && n <= c.workers && n <= c.Total()
    ensures Gets(c, d, x) && x.s.sent == c.from + n && x.s.got == c.from && x.s.disp.Sending?
  {
    var o := Start(c, d);
    if n == 0 {
      Begin(c, o);
      x := o;
    } else {
      x := SendMany(c, d, n - 1);
      x := Advance(c, o, x, Dispatch(Send));
    }
  }

  /** The first n epochs are through the collector, and the consumer has taken none. */
  ghost predicate Ahead(c: Config, s: State, n: nat) {
    && s.sent == s.got == s.next == c.from + n && s.disp.Sending?
    && |s.workers| == c.workers && (forall i :: 0 <= i < |s.workers| ==> s.workers[i].Idle?)
    && s.recv == |s.results| && s.coll.Recv? && s.reorder == map[]
    && s.taken == 0 && |s.pending| == n
  }

  lemma {:induction false} DeliverMany(c: Config, d: Db, n: nat) returns (x: Snap)
    requires c.Valid() && n <= c.workers + 1 && n <= c.Total()
    ensures Gets(c, d, x) && Ahead(c, x.s, n)
  {
    var o := Start(c, d);
    if n == 0 {
      Begin(c, o);
      x := o;
    } else {
      var j: Job;
      x := DeliverMany(c, d, n - 1);
      x, j := PostOne(c, o, x, 0);
      x := CollectOne(c, o, x);
    }
  }

  /** The work channel holds up to `workers` epochs, no more and no fewer, ... */
  lemma WorkChannelHolds(c: Config, d: Db, n: nat)
    requires c.Valid()
    ensures (exists x :: Gets(c, d, x) && x.s.sent - x.s.got == n) <==> n <= Min(c.workers, c.Total())
  {
    if n <= Min(c.workers, c.Total()) {
      var x := SendMany(c, d, n);
    }
    if x :| Gets(c, d, x) && x.s.sent - x.s.got == n {
      GetsInv(c, d, x);
    }
  }

  /** ... the result channel up to `workers` results ... */
  lemma ResultChannelHolds(c: Config, d: Db, n: nat)
    requires c.Valid()
    ensures (exists x :: Gets(c, d, x) && |x.s.results| - x.s.recv == n) <==> n <= Min(c.workers, c.Total())
  {
    if n <= Min(c.workers, c.Total()) {
      Begin(c, Start(c, d));
      var x := FillResults(c, Start(c, d), Start(c, d), 0, n);
    }
    if x :| Gets(c, d, x) && |x.s.results| - x.s.recv == n {
      GetsInv(c, d, x);
      BufferedInRange(c, x.s);
    }
  }

  /** The results in the channel are of different epochs of the range. */
  lemma BufferedInRange(c: Config, s: State)
    requires c.Valid() && InvPlaces(c, s) && s.got <= c.target + 1
    ensures |s.results| - s.recv <= c.Total()
  {
    var n := |s.results| - s.recv;
    var es: seq<nat> := seq(n, k requires 0 <= k < n => s.results[s.recv + k].epoch);
    forall k | 0 <= k < n
      ensures es[k] in s.place && s.place[es[k]] == Buffered(s.recv + k)
    {
      assert es[k] == s.results[s.recv + k].epoch;
    }
    assert NoRepeats(es);
    Cardinality(es);
    var all := set e | e in es;
    forall e | e in all
      ensures c.from <= e < c.target + 1
    {
      assert e in s.place;
    }
    assert |all| == |es|;
    IntervalCount(all, c.from, c.target + 1);
  }

  /** ... and the ordered channel up to `workers` + 1 jobs. */
  lemma OrderedChannelHolds(c: Config, d: Db, n: nat)
    requires c.Valid()
    ensures (exists x :: Gets(c, d, x) && |x.s.pending| - x.s.taken == n) <==> n <= Min(c.workers + 1, c.Total())
  {
    if n <= Min(c.workers + 1, c.Total()) {
      var x := DeliverMany(c, d, n);
    }
    if x :| Gets(c, d, x) && |x.s.pending| - x.s.taken == n {
      GetsInv(c, d, x);
      if 1 <= |x.s.pending| {
        assert Own(x.s.built, c.from + (|x.s.pending| - 1), x.s.pending[|x.s.pending| - 1]);
      }
    }
  }
}
