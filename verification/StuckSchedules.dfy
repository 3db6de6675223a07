/**
 Which backfill attempts can hang.  Pipeline.HaltsIff names the two shapes of an attempt that
 has stopped without returning; this module proves that they are final and says, for every
 range, every number of workers and every content of the store, whether a schedule leads there.
 */
module StuckSchedules {
  import opened Common
  import opened Lists
  import opened Pipeline

  // ---------------------------------------------------------------------------------
  // Stuck is for ever
  // ---------------------------------------------------------------------------------

  lemma StuckStep(c: Config, d: Db, s: State, a: Action)
    requires Inv(c, d, s) && (Orphaned(s) || Clogged(c, s)) && Enabled(c, d, s, a)
    ensures a.Cancel? || a.AddRow?
    ensures Orphaned(s) ==> Orphaned(After(c, d, s, a))
    ensures Clogged(c, s) ==> Clogged(c, After(c, d, s, a))
  {
    HaltsIff(c, d, s);
    assert !a.Internal();
  }

  /** Whatever still happens to a stuck attempt - a cancellation, foreign rows - it stays stuck
      in the same shape and never returns. */
  lemma {:induction false} StuckForever(c: Config, x: Snap, run: seq<Action>)
    requires Inv(c, x.d, x.s) && (Orphaned(x.s) || Clogged(c, x.s)) && Exec(c, x, run).Some?
    ensures var y := Exec(c, x, run).value;
            && (Orphaned(x.s) ==> Orphaned(y.s)) && (Clogged(c, x.s) ==> Clogged(c, y.s))
            && !y.s.cons.Returned?
    decreases |run|
  {
    if run != [] {
      StuckStep(c, x.d, x.s, run[0]);
      StepKeeps(c, x.d, x.s, run[0]);
      StuckForever(c, Step(c, x, run[0]), run[1..]);
    }
  }

  // ---------------------------------------------------------------------------------
  // Attempts that nobody cancels from outside
  // ---------------------------------------------------------------------------------

  /** Only the four actors move. */
  ghost predicate Alone(run: seq<Action>) {
    forall a :: a in run ==> a.Internal()
  }

  /** From snapshot o the actors alone get to x. */
  ghost predicate Leads(c: Config, o: Snap, x: Snap) {
    exists run :: Exec(c, o, run) == Some(x) && Alone(run)
  }

  function Start(c: Config, d: Db): Snap { Snap(d, Init(c)) }

  /** x is reached from store d by an attempt that is left alone. */
  ghost predicate Gets(c: Config, d: Db, x: Snap) {
    Leads(c, Start(c, d), x)
  }

  lemma {:induction false} ExecAppend(c: Config, x: Snap, run: seq<Action>, a: Action)
    requires Exec(c, x, run).Some? && Enabled(c, Exec(c, x, run).value.d, Exec(c, x, run).value.s, a)
    ensures Exec(c, x, run + [a]) == Some(Step(c, Exec(c, x, run).value, a))
    decreases |run|
  {
    if run == [] {
      assert run + [a] == [a] && [a][1..] == [];
    } else {
      ExecAppend(c, Step(c, x, run[0]), run[1..], a);
      assert (run + [a])[1..] == run[1..] + [a];
    }
  }

  lemma Advance(c: Config, o: Snap, x: Snap, a: Action) returns (y: Snap)
    requires Leads(c, o, x) && a.Internal() && Enabled(c, x.d, x.s, a)
    ensures Leads(c, o, y) && y == Step(c, x, a)
  {
    y := Step(c, x, a);
    var run :| Exec(c, o, run) == Some(x) && Alone(run);
    ExecAppend(c, o, run, a);
    assert Exec(c, o, run + [a]) == Some(y) && Alone(run + [a]);
  }

  lemma Begin(c: Config, o: Snap)
    ensures Leads(c, o, o)
  {
    assert Exec(c, o, []) == Some(o) && Alone([]);
  }

  /** An invariant of the actors alone: cancellation comes from the consumer, after a job it
      took; and the worker that reported a failure is gone once the report has left it. */
  ghost predicate AloneInv(c: Config, s: State) {
    && (s.cancelled ==> 1 <= s.taken && c.from < s.got)
    && (s.disp.Abandoned? ==> s.cancelled && c.from < c.target)
    && BuriedDead(s.workers, s.place, s.built)
    && LeftWith(s.coll, s.next, s.place)
  }

  /** A collector that left early had come to the epoch it was expecting. */
  ghost predicate LeftWith(coll: Collector, next: nat, place: map<nat, Place>) {
    coll == Done(AfterError) || coll == Done(Cancelled) ==> next in place && (place[next].Delivered? || place[next].InHand?)
  }

  ghost predicate BuriedDead(ws: seq<Worker>, place: map<nat, Place>, built: map<nat, Outcome>) {
    forall e :: e in built && built[e].Failed? && e in place && !place[e].AtWorker? ==> Dead(e) in ws
  }

  lemma DeadStay(ws: seq<Worker>, i: nat, w: Worker, e: nat)
    requires i < |ws| && !ws[i].Dead? && Dead(e) in ws
    ensures Dead(e) in ws[i := w]
  {
    var j :| 0 <= j < |ws| && ws[j] == Dead(e);
    assert ws[i := w][j] == Dead(e);
  }

  lemma WorkerBuries(c: Config, d: Db, s: State, i: nat, m: WorkerMove)
    requires InvWorkers(c, s.workers, s.place) && InvTaken(c, s.got, s.place) && OwnWorkers(s.workers, s.built)
    requires InvBuilt(d.rows, s.place, s.built) && c.from <= s.got
    requires BuriedDead(s.workers, s.place, s.built) && CanWork(c, d.rows, s, i, m)
    ensures var t := Worked(c, d.rows, s, i, m); BuriedDead(t.workers, t.place, t.built)
  {
    var t := Worked(c, d.rows, s, i, m);
    forall e | e in t.built && t.built[e].Failed? && e in t.place && !t.place[e].AtWorker?
      ensures Dead(e) in t.workers
    {
      if m.WPost? && s.workers[i].job.epoch == e {
        assert t.workers[i] == Dead(e);
      } else {
        assert e in s.built && s.built[e].Failed? && !s.place[e].AtWorker?;
        DeadStay(s.workers, i, t.workers[i], e);
      }
    }
  }

  lemma CollectorBuries(c: Config, s: State, m: CollectorMove)
    requires InvPlaces(c, s) && BuriedDead(s.workers, s.place, s.built) && CanCollect(c, s, m)
    requires !s.coll.TailPush? && m != CTailPick
    ensures var t := Collected(c, s, m); BuriedDead(t.workers, t.place, t.built)
  {
    if m.CTake? {
      BuriedStays(s.workers, s.place, s.built, s.results[s.recv].epoch, Held);
    } else if m.CPick? {
      BuriedStays(s.workers, s.place, s.built, s.next, InHand);
    } else if m.CPush? {
      BuriedStays(s.workers, s.place, s.built, s.next, Delivered);
    }
  }

  lemma BuriedStays(ws: seq<Worker>, place: map<nat, Place>, built: map<nat, Outcome>, e: nat, p: Place)
    requires BuriedDead(ws, place, built) && e in place && !place[e].AtWorker?
    ensures BuriedDead(ws, place[e := p], built)
  {}

  lemma CollectorLeaves(c: Config, s: State, m: CollectorMove)
    requires InvCollected(s.reorder, s.coll, s.next, s.place) && CanCollect(c, s, m) && !s.coll.TailPush?
    ensures var t := Collected(c, s, m); LeftWith(t.coll, t.next, t.place)
  {}

  lemma WorkerLeaves(c: Config, d: Db, s: State, i: nat, m: WorkerMove)
    requires InvWorkers(c, s.workers, s.place) && InvTaken(c, s.got, s.place) && CanWork(c, d.rows, s, i, m)
    requires LeftWith(s.coll, s.next, s.place)
    ensures var t := Worked(c, d.rows, s, i, m); LeftWith(t.coll, t.next, t.place)
  {}

  /** Something was taken from `pending`, so an epoch has left the work channel. */
  lemma TakenMeansGot(c: Config, d: Db, s: State)
    requires Inv(c, d, s) && 1 <= |s.pending|
    ensures c.from < s.got
  {
    assert Own(s.built, c.from + 0, s.pending[0]);
  }

  lemma ConsumerCancels(c: Config, d: Db, s: State, m: ConsumerMove)
    requires InvConsumer(c, d, s) && CanConsume(s, m)
    ensures s.taken <= Consumed(s, m).taken <= |s.pending|
    ensures Consumed(s, m).cancelled ==> s.cancelled || 1 <= Consumed(s, m).taken
  {}

  lemma WorkerAlone(c: Config, d: Db, s: State, i: nat, m: WorkerMove)
    requires Inv(c, d, s) && AloneInv(c, s) && CanWork(c, d.rows, s, i, m)
    ensures AloneInv(c, Worked(c, d.rows, s, i, m))
  {
    WorkerBuries(c, d, s, i, m);
    WorkerLeaves(c, d, s, i, m);
  }

  lemma CollectorAlone(c: Config, d: Db, s: State, m: CollectorMove)
    requires Inv(c, d, s) && AloneInv(c, s) && CanCollect(c, s, m)
    ensures AloneInv(c, Collected(c, s, m))
  {
    if s.coll.Tail? { TailIsComplete(c, d, s); }
    CollectorFrame(c, s, m);
    CollectorBuries(c, s, m);
    CollectorLeaves(c, s, m);
  }

  lemma ConsumerAlone(c: Config, d: Db, s: State, m: ConsumerMove)
    requires Inv(c, d, s) && AloneInv(c, s) && CanConsume(s, m)
    ensures AloneInv(c, Consumed(s, m))
  {
    ConsumerFrame(d, s, m);
    ConsumerCancels(c, d, s, m);
    if 1 <= |s.pending| { TakenMeansGot(c, d, s); }
  }

  lemma DispatcherAlone(c: Config, s: State, m: DispatcherMove)
    requires s.got <= s.sent && AloneInv(c, s) && CanDispatch(c, s, m)
    ensures AloneInv(c, Dispatched(s, m))
  {}

  lemma AloneKeeps(c: Config, d: Db, s: State, a: Action)
    requires Inv(c, d, s) && AloneInv(c, s) && a.Internal() && Enabled(c, d, s, a)
    ensures AloneInv(c, After(c, d, s, a))
  {
    match a
    case Dispatch(m) => DispatcherAlone(c, s, m);
    case Work(i, m) => WorkerAlone(c, d, s, i, m);
    case Collect(m) => CollectorAlone(c, d, s, m);
    case Consume(m) => ConsumerAlone(c, d, s, m);
  }

  lemma {:induction false} AloneExec(c: Config, x: Snap, run: seq<Action>)
    requires Inv(c, x.d, x.s) && AloneInv(c, x.s) && Exec(c, x, run).Some? && Alone(run)
    ensures var y := Exec(c, x, run).value; Inv(c, y.d, y.s) && AloneInv(c, y.s)
    decreases |run|
  {
    if run != [] {
      assert run[0] in run;
      StepKeeps(c, x.d, x.s, run[0]);
      AloneKeeps(c, x.d, x.s, run[0]);
      assert forall a :: a in run[1..] ==> a in run;
      AloneExec(c, Step(c, x, run[0]), run[1..]);
    }
  }

  lemma GetsInv(c: Config, d: Db, x: Snap)
    requires c.Valid() && Gets(c, d, x)
    ensures Inv(c, x.d, x.s) && AloneInv(c, x.s)
  {
    var run :| Exec(c, Start(c, d), run) == Some(x) && Alone(run);
    InitInv(c, d);
    AloneExec(c, Start(c, d), run);
  }

  // ---------------------------------------------------------------------------------
  // Pieces of schedules.  None of them lets a worker take or build an epoch after the context
  // was cancelled, which the model allows and the code does not.
  // ---------------------------------------------------------------------------------

  /** Worker i takes the next epoch. */
  lemma TakeOne(c: Config, o: Snap, x: Snap, i: nat) returns (y: Snap)
    requires Leads(c, o, x) && 1 <= c.workers && i < |x.s.workers| && x.s.workers[i].Idle?
    requires x.s.disp.Sending? && x.s.sent == x.s.got <= c.target
    ensures Leads(c, o, y) && y.d == x.d
    ensures y.s == x.s.(sent := x.s.got + 1, got := x.s.got + 1, workers := x.s.workers[i := Checking(x.s.got)],
                        place := y.s.place)
  {
    y := Advance(c, o, x, Dispatch(Send));
    y := Advance(c, o, y, Work(i, WTake));
  }

  /** Worker i finds a row for its epoch, or builds it. */
  lemma Answer(c: Config, o: Snap, x: Snap, i: nat) returns (y: Snap, j: Job)
    requires Leads(c, o, x) && i < |x.s.workers| && x.s.workers[i].Checking?
    ensures Leads(c, o, y) && y.d == x.d && j.epoch == x.s.workers[i].epoch
    ensures if j.epoch in x.d.rows then j.outcome.Skipped? else j.outcome == Built(BuiltEpoch(j.epoch, 0))
    ensures y.s == x.s.(workers := x.s.workers[i := Posting(j)], built := y.s.built)
  {
    var e := x.s.workers[i].epoch;
    if e in x.d.rows {
      y := Advance(c, o, x, Work(i, WSkip));
      j := Job(e, Skipped);
    } else {
      y := Advance(c, o, x, Work(i, WBuild));
      y := Advance(c, o, y, Work(i, WBuilt(0)));
      j := Job(e, Built(BuiltEpoch(e, 0)));
    }
  }

  /** Worker i takes the next epoch and has a result for it, to be posted. */
  lemma BuildOne(c: Config, o: Snap, x: Snap, i: nat) returns (y: Snap, j: Job)
    requires Leads(c, o, x) && 1 <= c.workers && i < |x.s.workers| && x.s.workers[i].Idle?
    requires x.s.disp.Sending? && x.s.sent == x.s.got <= c.target
    ensures Leads(c, o, y) && y.d == x.d && j.epoch == x.s.got
    ensures if j.epoch in x.d.rows then j.outcome.Skipped? else j.outcome == Built(BuiltEpoch(j.epoch, 0))
    ensures y.s == x.s.(sent := x.s.got + 1, got := x.s.got + 1, workers := x.s.workers[i := Posting(j)],
                        place := y.s.place, built := y.s.built)
  {
    y := TakeOne(c, o, x, i);
    y, j := Answer(c, o, y, i);
    assert y.s.workers == x.s.workers[i := Posting(j)];
  }

  /** The same, and the result is posted: the worker is idle again. */
  lemma PostOne(c: Config, o: Snap, x: Snap, i: nat) returns (y: Snap, j: Job)
    requires Leads(c, o, x) && 1 <= c.workers && i < |x.s.workers| && x.s.workers[i].Idle?
    requires x.s.disp.Sending? && x.s.sent == x.s.got <= c.target && |x.s.results| < x.s.recv + c.workers
    ensures Leads(c, o, y) && y.d == x.d && j.epoch == x.s.got
    ensures if j.epoch in x.d.rows then j.outcome.Skipped? else j.outcome == Built(BuiltEpoch(j.epoch, 0))
    ensures y.s == x.s.(sent := x.s.got + 1, got := x.s.got + 1, results := x.s.results + [j],
                        place := y.s.place, built := y.s.built)
  {
    y, j := BuildOne(c, o, x, i);
    y := Advance(c, o, y, Work(i, WPost));
    assert y.s.workers == x.s.workers;
  }

  /** The collector has the next epoch's job in its hand. */
  lemma HandOver(c: Config, o: Snap, x: Snap) returns (y: Snap)
    requires Leads(c, o, x) && x.s.coll.Recv? && |x.s.results| == x.s.recv + 1 && x.s.reorder == map[]
    requires x.s.results[x.s.recv].epoch == x.s.next
    ensures Leads(c, o, y) && y.d == x.d
    ensures y.s == x.s.(recv := x.s.recv + 1, coll := Push(x.s.results[x.s.recv]), place := y.s.place)
  {
    y := Advance(c, o, x, Collect(CTake));
    y := Advance(c, o, y, Collect(CPick));
    assert y.s.reorder == map[];
  }

  /** ... and sends it on. */
  lemma CollectOne(c: Config, o: Snap, x: Snap) returns (y: Snap)
    requires Leads(c, o, x) && x.s.coll.Recv? && |x.s.results| == x.s.recv + 1 && x.s.reorder == map[]
    requires x.s.results[x.s.recv].epoch == x.s.next && !x.s.results[x.s.recv].outcome.Failed?
    requires |x.s.pending| < x.s.taken + c.workers + 1
    ensures Leads(c, o, y) && y.d == x.d
    ensures y.s == x.s.(recv := x.s.recv + 1, next := x.s.next + 1, pending := x.s.pending + [x.s.results[x.s.recv]],
                        place := y.s.place)
  {
    y := HandOver(c, o, x);
    y := Advance(c, o, y, Collect(CPush));
    y := Advance(c, o, y, Collect(CBack));
  }

  /** The consumer persists the job it finds. */
  lemma PersistOne(c: Config, o: Snap, x: Snap) returns (y: Snap)
    requires Leads(c, o, x) && x.s.cons.Ready? && |x.s.pending| == x.s.taken + 1
    requires x.s.pending[x.s.taken].outcome.Built? ==>
               x.s.pending[x.s.taken].outcome.be.epoch == x.s.pending[x.s.taken].epoch
    requires !x.s.pending[x.s.taken].outcome.Failed?
    ensures Leads(c, o, y) && y.s == x.s.(taken := x.s.taken + 1, resume := x.s.pending[x.s.taken].epoch + 1)
    ensures Only(x.d, y.d, x.s.pending[x.s.taken].epoch)
  {
    var j := x.s.pending[x.s.taken];
    y := Advance(c, o, x, Consume(KTake));
    if j.outcome.Built? {
      y := SaveOne(c, o, y);
    }
    y := Advance(c, o, y, Consume(KCursor));
  }

  /** No rows but those of epoch e were added. */
  ghost predicate Only(d: Db, d': Db, e: nat) {
    d'.rows <= d.rows + {e} && d'.blobs <= d.blobs + {e}
  }

  lemma SaveOne(c: Config, o: Snap, x: Snap) returns (y: Snap)
    requires Leads(c, o, x) && x.s.cons.Persist? && x.s.cons.job.outcome.Built?
    ensures Leads(c, o, y) && y.s == x.s.(cons := SetCursor(x.s.cons.job))
    ensures x.s.cons.job.outcome.be.epoch == x.s.cons.job.epoch ==> Only(x.d, y.d, x.s.cons.job.epoch)
  {
    y := Advance(c, o, x, Consume(KRow));
    y := Advance(c, o, y, Consume(KBlobs));
  }

  /** Everything below e is through, and nothing is under way. */
  ghost predicate Quiet(c: Config, s: State, e: nat) {
    && s.sent == s.got == s.next == e && s.disp.Sending? && !s.cancelled
    && |s.workers| == c.workers && (forall i :: 0 <= i < |s.workers| ==> s.workers[i].Idle?)
    && s.recv == |s.results| && s.coll.Recv? && s.reorder == map[]
    && s.taken == |s.pending| && s.cons.Ready?
  }

  /** One epoch passes through the pipeline. */
  lemma PassOne(c: Config, o: Snap, x: Snap, e: nat) returns (y: Snap)
    requires Leads(c, o, x) && c.Valid() && Quiet(c, x.s, e) && e <= c.target
    ensures Leads(c, o, y) && Quiet(c, y.s, e + 1) && Only(x.d, y.d, e)
  {
    var j: Job;
    y, j := PostOne(c, o, x, 0);
    y := CollectOne(c, o, y);
    y := PersistOne(c, o, y);
  }

  lemma {:induction false} PassUntil(c: Config, d: Db, e: nat) returns (x: Snap)
    requires c.Valid() && c.from <= e <= c.target
    ensures Gets(c, d, x) && Quiet(c, x.s, e)
    ensures (forall r :: r in x.d.rows ==> r in d.rows || r < e) && forall r :: r in x.d.blobs ==> r in d.blobs || r < e
    decreases e
  {
    var o := Start(c, d);
    if e == c.from {
      Begin(c, o);
      x := o;
    } else {
      x := PassUntil(c, d, e - 1);
      x := PassOne(c, o, x, e - 1);
    }
  }

  /** Once the work channel is closed and empty, idle workers leave. */
  lemma {:induction false} ExitIdle(c: Config, o: Snap, x: Snap, n: nat) returns (y: Snap)
    requires Leads(c, o, x) && n <= |x.s.workers| && x.s.got == x.s.sent && !x.s.disp.Sending?
    ensures Leads(c, o, y) && y.d == x.d && y.s == x.s.(workers := y.s.workers) && |y.s.workers| == |x.s.workers|
    ensures forall i :: 0 <= i < n ==> y.s.workers[i] == if x.s.workers[i].Idle? then Quit else x.s.workers[i]
    ensures forall i :: n <= i < |x.s.workers| ==> y.s.workers[i] == x.s.workers[i]
    decreases n
  {
    y := x;
    if n > 0 {
      y := ExitIdle(c, o, x, n - 1);
      if x.s.workers[n - 1].Idle? {
        y := Advance(c, o, y, Work(n - 1, WExit));
      }
    }
  }

  // ---------------------------------------------------------------------------------
  // Orphaned
  // ---------------------------------------------------------------------------------

  /** Persisting the first epoch fails while the dispatcher is about to send the second: it
      leaves without closing the result channel, and the attempt never returns. */
  lemma OrphanedIsReachable(c: Config, d: Db) returns (x: Snap)
    requires c.Valid() && c.from < c.target
    ensures Gets(c, d, x) && Orphaned(x.s)
  {
    var o := Start(c, d);
    var j: Job;
    Begin(c, o);
    x := o;
    x, j := PostOne(c, o, x, 0);
    x := CollectOne(c, o, x);
    x := Advance(c, o, x, Consume(KTake));
    x := Advance(c, o, x, Consume(KFail));
    x := Advance(c, o, x, Dispatch(GiveUp));
    x := ExitIdle(c, o, x, c.workers);
  }

  // ---------------------------------------------------------------------------------
  // Clogged
  // ---------------------------------------------------------------------------------

  /** Worker i fills the result channel, which nobody reads any more. */
  lemma {:induction false} FillResults(c: Config, o: Snap, x: Snap, i: nat, n: nat) returns (y: Snap)
    requires Leads(c, o, x) && 1 <= c.workers && i < |x.s.workers| && x.s.workers[i].Idle? && x.s.disp.Sending?
    requires x.s.sent == x.s.got && x.s.got + n <= c.target + 1 && |x.s.results| + n <= x.s.recv + c.workers
    ensures Leads(c, o, y) && |y.s.results| == |x.s.results| + n
    ensures y.s == x.s.(sent := x.s.got + n, got := x.s.got + n, results := y.s.results,
                        place := y.s.place, built := y.s.built)
    decreases n
  {
    y := x;
    if n > 0 {
      var j: Job;
      y, j := PostOne(c, o, x, i);
      y := FillResults(c, o, y, i, n - 1);
    }
  }

  /** Worker i fills the channel, has one result more to post, and the dispatcher waits. */
  lemma FillAndBlock(c: Config, o: Snap, x: Snap, i: nat) returns (y: Snap)
    requires Leads(c, o, x) && c.Valid() && i < |x.s.workers| && x.s.workers[i].Idle? && x.s.disp.Sending?
    requires x.s.sent == x.s.got == c.target - c.workers && |x.s.results| == x.s.recv
    ensures Leads(c, o, y) && |y.s.results| == x.s.recv + c.workers && |y.s.workers| == |x.s.workers|
    ensures y.s.workers[i].Posting? && forall k :: 0 <= k < |x.s.workers| && k != i ==> y.s.workers[k] == x.s.workers[k]
    ensures y.s == x.s.(sent := c.target + 1, got := c.target + 1, disp := Waiting, workers := y.s.workers,
                        results := y.s.results, place := y.s.place, built := y.s.built)
  {
    var j: Job;
    y := FillResults(c, o, x, i, c.workers);
    y, j := BuildOne(c, o, y, i);
    y := Advance(c, o, y, Dispatch(Close));
  }

  /** Two workers or more: building an epoch fails, the collector leaves after passing the
      failure on, and another worker is left behind a full channel. */
  lemma CloggedByFailure(c: Config, d: Db) returns (x: Snap)
    requires c.Valid() && 2 <= c.workers && c.workers + 2 <= c.Total()
    ensures Gets(c, d, x) && Clogged(c, x.s)
  {
    var o := Start(c, d);
    x := PassUntil(c, d, c.target - c.workers - 1);
    x := FailOne(c, o, x);
    x := FillAndBlock(c, o, x, 1);
    x := Advance(c, o, x, Consume(KTake));
    x := Advance(c, o, x, Consume(KEof));
    x := ExitIdle(c, o, x, c.workers);
    assert x.s.workers[1].Posting?;
  }

  /** Worker 0 fails to build the next epoch; collector and worker leave. */
  lemma FailOne(c: Config, o: Snap, x: Snap) returns (y: Snap)
    requires Leads(c, o, x) && c.Valid() && Quiet(c, x.s, x.s.got) && x.s.got <= c.target
    ensures Leads(c, o, y) && |y.s.pending| == |x.s.pending| + 1 && y.s.pending[|x.s.pending|].outcome.Failed?
    ensures y.s == x.s.(sent := x.s.got + 1, got := x.s.got + 1, workers := x.s.workers[0 := Dead(x.s.got)],
                        results := y.s.results, recv := |y.s.results|, coll := Done(AfterError), pending := y.s.pending,
                        place := y.s.place, built := y.s.built)
  {
    y := TakeOne(c, o, x, 0);
    y := ReportFailure(c, o, y, 0);
    assert y.s.workers == x.s.workers[0 := Dead(x.s.got)];
    y := HandOver(c, o, y);
    y := Advance(c, o, y, Collect(CPush));
  }

  lemma ReportFailure(c: Config, o: Snap, x: Snap, i: nat) returns (y: Snap)
    requires Leads(c, o, x) && i < |x.s.workers| && x.s.workers[i].Checking? && |x.s.results| < x.s.recv + c.workers
    ensures Leads(c, o, y) && y.d == x.d
    ensures y.s == x.s.(workers := x.s.workers[i := Dead(x.s.workers[i].epoch)],
                        results := x.s.results + [Job(x.s.workers[i].epoch, Failed)],
                        place := y.s.place, built := y.s.built)
  {
    y := Advance(c, o, x, Work(i, WFail));
    y := Advance(c, o, y, Work(i, WPost));
  }

  /** Any number of workers: persisting an epoch fails while the collector has the next one in
      its hand; the collector leaves on cancellation. */
  lemma CloggedByCancel(c: Config, d: Db) returns (x: Snap)
    requires c.Valid() && c.workers + 3 <= c.Total()
    ensures Gets(c, d, x) && Clogged(c, x.s)
  {
    var o := Start(c, d);
    x := PassUntil(c, d, c.target - c.workers - 2);
    x := OneAhead(c, o, x);
    x := FillAndBlock(c, o, x, 0);
    x := GiveUpPush(c, o, x);
    x := ExitIdle(c, o, x, c.workers);
    assert x.s.workers[0].Posting?;
  }

  /** Two epochs later: one job waits for the consumer, the collector holds the other. */
  lemma OneAhead(c: Config, o: Snap, x: Snap) returns (y: Snap)
    requires Leads(c, o, x) && c.Valid() && Quiet(c, x.s, x.s.got) && x.s.got + 1 <= c.target
    ensures Leads(c, o, y) && y.s.coll.Push? && |y.s.pending| == |x.s.pending| + 1
    ensures !y.s.pending[|x.s.pending|].outcome.Failed?
    ensures y.s == x.s.(sent := x.s.got + 2, got := x.s.got + 2, next := x.s.next + 1, results := y.s.results,
                        recv := |y.s.results|, coll := y.s.coll, pending := y.s.pending, place := y.s.place, built := y.s.built)
  {
    var j: Job;
    y, j := PostOne(c, o, x, 0);
    y := CollectOne(c, o, y);
    y, j := PostOne(c, o, y, 0);
    y := HandOver(c, o, y);
  }

  /** Persisting the waiting job fails, and the collector gives up the one it holds. */
  lemma GiveUpPush(c: Config, o: Snap, x: Snap) returns (y: Snap)
    requires Leads(c, o, x) && x.s.coll.Push? && x.s.cons.Ready? && |x.s.pending| == x.s.taken + 1
    requires !x.s.pending[x.s.taken].outcome.Failed?
    ensures Leads(c, o, y)
    ensures y.s == x.s.(taken := x.s.taken + 1, coll := Done(Cancelled), cons := AwaitDispatch(true), cancelled := true)
  {
    y := Advance(c, o, x, Consume(KTake));
    y := Advance(c, o, y, Consume(KFail));
    y := Advance(c, o, y, Collect(CCancel));
    y := Advance(c, o, y, Consume(KEof));
  }

  lemma CloggedIsReachable(c: Config, d: Db) returns (x: Snap)
    requires c.Valid() && ClogsFrom(c) <= c.Total()
    ensures Gets(c, d, x) && Clogged(c, x.s)
  {
    if c.workers == 1 {
      x := CloggedByCancel(c, d);
    } else {
      x := CloggedByFailure(c, d);
    }
  }

  /** The shortest range that can clog: one epoch passed on as a failure, one for each place in
      the result channel, one in the blocked worker's hands.  A single worker does not survive a
      failed build, so there the collector must leave on cancellation, one epoch later. */
  function ClogsFrom(c: Config): nat { if c.workers == 1 then 4 else c.workers + 2 }

  /** The epochs on the result channel and the one of a blocked worker are all different. */
  lemma BlockedEpochs(c: Config, s: State, i: nat) returns (es: seq<nat>)
    requires InvPlaces(c, s) && |s.results| == s.recv + c.workers && i < |s.workers| && s.workers[i].Posting?
    ensures |es| == c.workers + 1 && NoRepeats(es)
    ensures forall e :: e in es ==> e in s.place && (s.place[e].AtWorker? || s.place[e].Buffered?)
  {
    es := seq(c.workers, k requires 0 <= k < c.workers => s.results[s.recv + k].epoch);
    forall k | 0 <= k < c.workers
      ensures es[k] in s.place && s.place[es[k]] == Buffered(s.recv + k)
    {
      assert es[k] == s.results[s.recv + k].epoch;
    }
    es := es + [s.workers[i].job.epoch];
    assert s.workers[i].Holding();
  }

  /** All of them lie beyond the epoch the collector left with. */
  lemma BlockedBeyond(c: Config, s: State, i: nat)
    requires InvPlaces(c, s) && |s.results| == s.recv + c.workers && i < |s.workers| && s.workers[i].Posting?
    requires s.next in s.place && (s.place[s.next].Delivered? || s.place[s.next].InHand?) && s.got <= c.target + 1
    ensures s.next + c.workers + 1 <= c.target
  {
    var es := BlockedEpochs(c, s, i);
    Cardinality(es);
    forall e | e in es
      ensures s.next + 1 <= e < c.target + 1
    {
      assert e in s.place;
    }
    var all := set e | e in es;
    IntervalCount(all, s.next + 1, c.target + 1);
  }

  /** A single worker whose failure was passed on is gone. */
  lemma LoneFailure(c: Config, s: State)
    requires InvPending(c, s.got, true, s.next, s.pending, s.built) && BuriedDead(s.workers, s.place, s.built)
    requires c.workers == |s.workers| == 1 && s.next in s.place && !s.place[s.next].AtWorker?
    ensures AllExited(s)
  {
    assert Own(s.built, c.from + (s.next - c.from), s.pending[s.next - c.from]);
    assert Dead(s.next) in s.workers;
  }

  /** The collector has not come to the end of the range while a worker still has a result. */
  lemma NotCompleted(c: Config, d: Db, s: State, i: nat)
    requires Inv(c, d, s) && i < |s.workers| && s.workers[i].Posting?
    ensures s.coll != Done(Completed)
  {
    assert s.workers[i].Holding();
  }

  lemma CloggedNeeds(c: Config, d: Db, s: State)
    requires Inv(c, d, s) && AloneInv(c, s) && Clogged(c, s)
    ensures ClogsFrom(c) <= c.Total()
  {
    var i :| 0 <= i < |s.workers| && !s.workers[i].Exited();
    NotCompleted(c, d, s, i);
    assert s.coll == Done(s.coll.end) && (s.coll.end == AfterError || s.coll.end == Cancelled);
    BlockedBeyond(c, s, i);
    if s.coll == Done(AfterError) && c.workers == 1 {
      LoneFailure(c, s);
    }
  }

  // ---------------------------------------------------------------------------------
  // The exact conditions
  // ---------------------------------------------------------------------------------

  lemma CanOrphanIff(c: Config, d: Db)
    requires c.Valid()
    ensures (exists x :: Gets(c, d, x) && Orphaned(x.s)) <==> c.from < c.target
  {
    if c.from < c.target {
      var x := OrphanedIsReachable(c, d);
    }
    if x :| Gets(c, d, x) && Orphaned(x.s) {
      GetsInv(c, d, x);
    }
  }

  lemma CanClogIff(c: Config, d: Db)
    requires c.Valid()
    ensures (exists x :: Gets(c, d, x) && Clogged(c, x.s)) <==> ClogsFrom(c) <= c.Total()
  {
    if ClogsFrom(c) <= c.Total() {
      var x := CloggedIsReachable(c, d);
    }
    if x :| Gets(c, d, x) && Clogged(c, x.s) {
      GetsInv(c, d, x);
      CloggedNeeds(c, x.d, x.s);
    }
  }

  /** An attempt that nobody cancels from outside can come to a standstill without returning if
      and only if it has more than one epoch to do. */
  lemma TeardownCanHangIff(c: Config, d: Db)
    requires c.Valid()
    ensures (exists x :: Gets(c, d, x) && Halted(c, x.d, x.s) && !x.s.cons.Returned?) <==> c.from < c.target
  {
    if c.from < c.target {
      var x := OrphanedIsReachable(c, d);
      GetsInv(c, d, x);
      HaltsIff(c, x.d, x.s);
    }
    if x :| Gets(c, d, x) && Halted(c, x.d, x.s) && !x.s.cons.Returned? {
      GetsInv(c, d, x);
      HaltsIff(c, x.d, x.s);
      if Clogged(c, x.s) { CloggedNeeds(c, x.d, x.s); }
    }
  }

  lemma CancelFirst(c: Config, d: Db, x: Snap)
    requires Leads(c, Snap(d, Init(c).(cancelled := true)), x)
    ensures Reachable(c, d, x)
  {
    var o := Snap(d, Init(c).(cancelled := true));
    var run :| Exec(c, o, run) == Some(x) && Alone(run);
    assert Step(c, Start(c, d), Cancel) == o;
    assert ([Cancel] + run)[1..] == run;
    assert Exec(c, Start(c, d), [Cancel] + run) == Some(x);
  }

  /** Cancelled from outside, every attempt can hang, whatever its range and workers: the
      dispatcher may leave before it has sent anything. */
  lemma CancelledCanHang(c: Config, d: Db) returns (x: Snap)
    requires c.Valid()
    ensures Reachable(c, d, x) && Halted(c, x.d, x.s) && !x.s.cons.Returned?
  {
    var o := Snap(d, Init(c).(cancelled := true));
    Begin(c, o);
    x := Advance(c, o, o, Dispatch(GiveUp));
    x := ExitIdle(c, o, x, c.workers);
    CancelFirst(c, d, x);
    ReachableInv(c, d, x);
    HaltsIff(c, x.d, x.s);
  }
}
