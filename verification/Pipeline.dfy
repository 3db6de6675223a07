/**
 One attempt of the backfill pipeline (runBackfillPipeline): a dispatcher, a pool of
 workers, a collector with a reorder map and a single consumer, joined by bounded
 channels.  The attempt is a transition system with one action per channel operation,
 build outcome, row write, cursor write and cancellation, so that a schedule is a
 sequence of actions and every theorem quantifies over all of them.

 A channel is the log of everything ever sent on it plus the number of items received;
 what is buffered is the difference, and the channel's capacity bounds that difference.
 */
module Pipeline {
  import opened Common

  datatype Config = Config(from: nat, target: nat, workers: nat) {
    ghost predicate Valid() { from <= target && 1 <= workers }
    function Total(): int { target + 1 - from }
  }

  /** The part of the store the attempt touches: epochs that have a row, epochs whose blob
      rows were saved too, the backfill cursor (0 when unset) and the live cursor (absent when
      it has no row). */
  datatype Db = Db(rows: set<nat>, blobs: set<nat>, backfill: nat, live: Option<nat>)

  /** What buildEpoch hands over; `payload` stands for everything it computed. */
  datatype BuiltEpoch = BuiltEpoch(epoch: nat, payload: nat)

  datatype Outcome = Built(be: BuiltEpoch) | Skipped | Failed

  datatype Job = Job(epoch: nat, outcome: Outcome)

  datatype Dispatcher = Sending | Waiting | Finished | Abandoned

  datatype Worker =
    | Idle
    | Checking(epoch: nat)
    | Building(epoch: nat)
    | Posting(job: Job)
    | Quit
    | Dead(failed: nat)
  {
    predicate Exited() { Quit? || Dead? }
    predicate Holding() { Checking? || Building? || Posting? }
    function Epoch(): nat
      requires Holding()
    {
      if Posting? then job.epoch else epoch
    }
  }

  datatype End = AfterError | Cancelled | Completed

  datatype Collector = Recv | Flush | Push(job: Job) | Tail | TailPush(tailJob: Job) | Done(end: End)

  datatype Consumer =
    | Ready
    | Persist(job: Job)
    | SaveBlobs(job: Job)
    | SetCursor(job: Job)
    | Drain
    | AwaitDispatch(err: bool)
    | AwaitProducer(err: bool)
    | Returned(resume: nat, err: bool)

  /** Where an epoch that left the work channel is: in worker i's hands, the k-th message
      ever sent on the result channel and not yet received, in the reorder map, in the
      collector's hand, or sent on to the consumer. */
  datatype Place = AtWorker(i: nat) | Buffered(k: nat) | Held | InHand | Delivered

  /** `place` and `built` are history: they record what happened and no action reads them. */
  datatype State = State(
    sent: nat, got: nat, disp: Dispatcher,
    workers: seq<Worker>,
    results: seq<Job>, recv: nat,
    coll: Collector, reorder: map<nat, Job>, next: nat,
    pending: seq<Job>, taken: nat,
    cons: Consumer, resume: nat,
    cancelled: bool,
    place: map<nat, Place>, built: map<nat, Outcome>)

  datatype DispatcherMove = Send | GiveUp | Close | Finish

  /** WTake and WExit are the two ways `range workCh` goes on; WFail covers a cancelled
      context, a failed existence query and a failed build. */
  datatype WorkerMove = WTake | WExit | WSkip | WBuild | WBuilt(payload: nat) | WFail | WPost

  datatype CollectorMove = CTake | CTail | CPick | CBack | CPush | CCancel | CTailPick | CTailPush | CTailCancel | CEnd

  /** KCursorLost is a cursor write that took effect although it reported an error. */
  datatype ConsumerMove =
    | KTake | KEof | KRow | KBlobs | KCursor | KCursorLost | KFail | KDrop | KDispatched | KReturn

  datatype Action =
    | Dispatch(d: DispatcherMove)
    | Work(i: nat, w: WorkerMove)
    | Collect(c: CollectorMove)
    | Consume(k: ConsumerMove)
    | Cancel
    | AddRow(epoch: nat)
  {
    /** A move of one of the four actors, as opposed to what the outside world does. */
    predicate Internal() { !Cancel? && !AddRow? }
  }

  /** The pool size is at least one whatever is configured. */
  function EffectiveWorkers(configured: int): (w: nat)
    ensures w >= 1 && (configured >= 1 ==> w == configured) && (configured < 1 ==> w == 1)
  {
    if configured <= 0 then 1 else configured
  }

  function Init(c: Config): State {
    State(c.from, c.from, Sending, seq(c.workers, i => Idle), [], 0, Recv, map[], c.from,
          [], 0, Ready, c.from, false, map[], map[])
  }

  predicate AllExited(s: State) {
    forall i :: 0 <= i < |s.workers| ==> s.workers[i].Exited()
  }

  predicate CanDispatch(c: Config, s: State, m: DispatcherMove) {
    match m
    case Send => s.disp.Sending? && s.sent <= c.target && s.sent < s.got + c.workers
    case GiveUp => s.disp.Sending? && s.sent <= c.target && s.cancelled
    case Close => s.disp.Sending? && c.target < s.sent
    case Finish => s.disp.Waiting? && AllExited(s)
  }

  function Dispatched(s: State, m: DispatcherMove): State {
    match m
    case Send => s.(sent := s.sent + 1)
    case GiveUp => s.(disp := Abandoned)
    case Close => s.(disp := Waiting)
    case Finish => s.(disp := Finished)
  }

  predicate CanWork(c: Config, rows: set<nat>, s: State, i: nat, m: WorkerMove) {
    i < |s.workers| &&
    var w := s.workers[i];
    match m
    case WTake => w.Idle? && s.got < s.sent
    case WExit => w.Idle? && s.got == s.sent && !s.disp.Sending?
    case WSkip => w.Checking? && w.epoch in rows
    case WBuild => w.Checking? && w.epoch !in rows
    case WBuilt(_) => w.Building?
    case WFail => w.Checking? || w.Building?
    case WPost => w.Posting? && |s.results| < s.recv + c.workers
  }

  function Worked(c: Config, rows: set<nat>, s: State, i: nat, m: WorkerMove): State
    requires CanWork(c, rows, s, i, m)
  {
    match m
    case WTake =>
      s.(workers := s.workers[i := Checking(s.got)], got := s.got + 1, place := s.place[s.got := AtWorker(i)])
    case WExit => s.(workers := s.workers[i := Quit])
    case WSkip => Report(s, i, Skipped)
    case WBuild => s.(workers := s.workers[i := Building(s.workers[i].epoch)])
    case WBuilt(p) => Report(s, i, Built(BuiltEpoch(s.workers[i].epoch, p)))
    case WFail => Report(s, i, Failed)
    case WPost =>
      var j := s.workers[i].job;
      s.(workers := s.workers[i := if j.outcome.Failed? then Dead(j.epoch) else Idle],
         results := s.results + [j], place := s.place[j.epoch := Buffered(|s.results|)])
  }

  /** Worker i has the outcome for the epoch it holds and turns to posting it. */
  function Report(s: State, i: nat, o: Outcome): State
    requires i < |s.workers| && (s.workers[i].Checking? || s.workers[i].Building?)
  {
    var e := s.workers[i].epoch;
    s.(workers := s.workers[i := Posting(Job(e, o))], built := s.built[e := o])
  }

  predicate CanCollect(c: Config, s: State, m: CollectorMove) {
    match m
    case CTake => s.coll.Recv? && s.recv < |s.results|
    case CTail => s.coll.Recv? && s.recv == |s.results| && s.disp.Finished?
    case CPick => s.coll.Flush? && s.next in s.reorder
    case CBack => s.coll.Flush? && s.next !in s.reorder
    case CPush => s.coll.Push? && |s.pending| < s.taken + c.workers + 1
    case CCancel => s.coll.Push? && s.cancelled
    case CTailPick => s.coll.Tail? && s.next <= c.target && s.next in s.reorder
    case CTailPush => s.coll.TailPush? && |s.pending| < s.taken + c.workers + 1
    case CTailCancel => s.coll.TailPush? && s.cancelled
    case CEnd => s.coll.Tail? && !(s.next <= c.target && s.next in s.reorder)
  }

  function Collected(c: Config, s: State, m: CollectorMove): State
    requires CanCollect(c, s, m)
  {
    match m
    case CTake =>
      var r := s.results[s.recv];
      s.(recv := s.recv + 1, reorder := s.reorder[r.epoch := r], coll := Flush, place := s.place[r.epoch := Held])
    case CTail => s.(coll := Tail)
    case CPick => Pick(s, Push(s.reorder[s.next]))
    case CBack => s.(coll := Recv)
    case CPush => Deliver(s, s.coll.job, Flush)
    case CCancel => s.(coll := Done(Cancelled))
    case CTailPick => Pick(s, TailPush(s.reorder[s.next]))
    case CTailPush => Deliver(s, s.coll.tailJob, Tail)
    case CTailCancel => s.(coll := Done(Cancelled))
    case CEnd => s.(coll := Done(Completed))
  }

  function Pick(s: State, k: Collector): State {
    s.(coll := k, reorder := s.reorder - {s.next}, place := s.place[s.next := InHand])
  }

  /** The collector's send on `pending`: an error job is the last one it sends. */
  function Deliver(s: State, j: Job, k: Collector): State {
    var t := s.(pending := s.pending + [j], place := s.place[s.next := Delivered]);
    if j.outcome.Failed? then t.(coll := Done(AfterError))
    else t.(coll := k, next := s.next + 1)
  }

  predicate CanConsume(s: State, m: ConsumerMove) {
    match m
    case KTake => s.cons.Ready? && s.taken < |s.pending|
    case KEof => (s.cons.Ready? || s.cons.Drain?) && s.taken == |s.pending| && s.coll.Done?
    case KRow => s.cons.Persist? && s.cons.job.outcome.Built?
    case KBlobs => s.cons.SaveBlobs?
    case KCursor => s.cons.SetCursor?
    case KCursorLost => s.cons.SetCursor?
    case KFail => s.cons.Persist? || s.cons.SaveBlobs? || s.cons.SetCursor?
    case KDrop => s.cons.Drain? && s.taken < |s.pending|
    case KDispatched => s.cons.AwaitDispatch? && (s.disp.Finished? || s.disp.Abandoned?)
    case KReturn => s.cons.AwaitProducer? && s.coll.Done?
  }

  function Consumed(s: State, m: ConsumerMove): State
    requires CanConsume(s, m)
  {
    match m
    case KTake =>
      var j := s.pending[s.taken];
      if j.outcome.Failed? then s.(taken := s.taken + 1, cons := Drain, cancelled := true)
      else s.(taken := s.taken + 1, cons := if j.outcome.Skipped? then SetCursor(j) else Persist(j))
    case KEof => s.(cons := AwaitDispatch(s.cons.Drain?))
    case KRow => s.(cons := SaveBlobs(s.cons.job))
    case KBlobs => s.(cons := SetCursor(s.cons.job))
    case KCursor => s.(cons := Ready, resume := s.cons.job.epoch + 1)
    case KCursorLost => s.(cons := Drain, cancelled := true)
    case KFail => s.(cons := Drain, cancelled := true)
    case KDrop => s.(taken := s.taken + 1)
    case KDispatched => s.(cons := AwaitProducer(s.cons.err))
    case KReturn => s.(cons := Returned(s.resume, s.cons.err || s.coll.end.Cancelled?))
  }

  /** The consumer is the only actor that writes: the epoch row before the blob rows, then
      the cursor. */
  function Written(d: Db, s: State, m: ConsumerMove): Db
    requires CanConsume(s, m)
  {
    match m
    case KRow => d.(rows := d.rows + {s.cons.job.outcome.be.epoch})
    case KBlobs => d.(blobs := d.blobs + {s.cons.job.epoch})
    case KCursor => d.(backfill := s.cons.job.epoch)
    case KCursorLost => d.(backfill := s.cons.job.epoch)
    case _ => d
  }

  predicate Enabled(c: Config, d: Db, s: State, a: Action) {
    match a
    case Dispatch(m) => CanDispatch(c, s, m)
    case Work(i, m) => CanWork(c, d.rows, s, i, m)
    case Collect(m) => CanCollect(c, s, m)
    case Consume(m) => CanConsume(s, m)
    case Cancel => !s.cancelled
    case AddRow(_) => true
  }

  function After(c: Config, d: Db, s: State, a: Action): State
    requires Enabled(c, d, s, a)
  {
    match a
    case Dispatch(m) => Dispatched(s, m)
    case Work(i, m) => Worked(c, d.rows, s, i, m)
    case Collect(m) => Collected(c, s, m)
    case Consume(m) => Consumed(s, m)
    case Cancel => s.(cancelled := true)
    case AddRow(_) => s
  }

  function DbAfter(c: Config, d: Db, s: State, a: Action): Db
    requires Enabled(c, d, s, a)
  {
    match a
    case Consume(m) => Written(d, s, m)
    case AddRow(e) => d.(rows := d.rows + {e})
    case _ => d
  }

  // ---------------------------------------------------------------------------------
  // The invariant.  Each part names the fields it depends on, so that an action which
  // leaves those fields alone keeps that part.
  // ---------------------------------------------------------------------------------

  ghost predicate InvDispatch(c: Config, sent: nat, got: nat, disp: Dispatcher, cancelled: bool) {
    && c.from <= got <= sent <= c.target + 1
    && sent <= got + c.workers
    && (disp.Waiting? || disp.Finished? ==> sent == c.target + 1)
    && (disp.Abandoned? ==> cancelled)
  }

  /** A worker leaves the pool when the work channel is closed and empty, or after posting
      a failure; the result channel is closed only when all have left. */
  ghost predicate InvExit(sent: nat, got: nat, disp: Dispatcher, ws: seq<Worker>, built: map<nat, Outcome>) {
    && (disp.Finished? ==> forall i :: 0 <= i < |ws| ==> ws[i].Exited())
    && (forall i :: 0 <= i < |ws| && ws[i].Quit? ==> !disp.Sending? && got == sent)
    && (forall i :: 0 <= i < |ws| && ws[i].Dead? ==> ws[i].failed in built && built[ws[i].failed].Failed?)
  }

  /** The epochs taken off the work channel are exactly those with a place ... */
  ghost predicate InvTaken(c: Config, got: nat, place: map<nat, Place>) {
    forall e :: e in place <==> c.from <= e < got
  }

  /** ... and the place tells the truth: a worker holds an epoch iff that is its place, */
  ghost predicate InvWorkers(c: Config, ws: seq<Worker>, place: map<nat, Place>) {
    && |ws| == c.workers
    && (forall e :: e in place && place[e].AtWorker? ==>
          place[e].i < |ws| && ws[place[e].i].Holding() && ws[place[e].i].Epoch() == e)
    && (forall i :: 0 <= i < |ws| && ws[i].Holding() ==> ws[i].Epoch() in place && place[ws[i].Epoch()] == AtWorker(i))
  }

  /** the result channel buffers it iff that is its place, */
  ghost predicate InvResults(c: Config, results: seq<Job>, recv: nat, place: map<nat, Place>) {
    && recv <= |results| <= recv + c.workers
    && (forall e :: e in place && place[e].Buffered? ==> recv <= place[e].k < |results| && results[place[e].k].epoch == e)
    && (forall k :: recv <= k < |results| ==> results[k].epoch in place && place[results[k].epoch] == Buffered(k))
  }

  /** and the reorder map, the collector's hand and the log of `pending` likewise. */
  ghost predicate InvCollected(reorder: map<nat, Job>, coll: Collector, next: nat, place: map<nat, Place>) {
    && (forall e :: e in place && place[e].Held? ==> e in reorder)
    && (forall e :: e in reorder ==> e in place && place[e].Held?)
    && (forall e :: e in place && place[e].InHand? ==> e == next && (coll.Push? || coll.Done?))
    && (forall e :: e in place && e < next ==> place[e].Delivered?)
    && (forall e :: e in place && place[e].Delivered? ==> e < next || (e == next && coll == Done(AfterError)))
    && (coll.Push? ==> next in place && place[next].InHand?)
    && (coll.Recv? || coll.Tail? ==> next !in reorder)
  }

  /** The job that belongs to epoch e. */
  ghost predicate Own(built: map<nat, Outcome>, e: nat, j: Job) {
    e in built && j == Job(e, built[e])
  }

  /** One outcome is recorded per epoch; a built epoch is that epoch's, a skipped one has a row. */
  ghost predicate InvBuilt(rows: set<nat>, place: map<nat, Place>, built: map<nat, Outcome>) {
    && (forall e :: e in built ==> e in place)
    && (forall e :: e in built && built[e].Built? ==> built[e].be.epoch == e)
    && (forall e :: e in built && built[e].Skipped? ==> e in rows)
  }

  ghost predicate OwnWorkers(ws: seq<Worker>, built: map<nat, Outcome>) {
    && (forall i :: 0 <= i < |ws| && ws[i].Posting? ==> Own(built, ws[i].job.epoch, ws[i].job))
    && (forall i :: 0 <= i < |ws| && (ws[i].Checking? || ws[i].Building?) ==> ws[i].epoch !in built)
  }

  ghost predicate OwnResults(results: seq<Job>, built: map<nat, Outcome>) {
    forall k :: 0 <= k < |results| ==> Own(built, results[k].epoch, results[k])
  }

  ghost predicate OwnReorder(reorder: map<nat, Job>, coll: Collector, next: nat, built: map<nat, Outcome>) {
    && (forall e :: e in reorder ==> Own(built, e, reorder[e]))
    && (coll.Push? ==> Own(built, next, coll.job))
  }

  /** What has been sent on `pending`: the results of from, from+1, ... in order, with a
      failure only at the very end. */
  ghost predicate InvPending(c: Config, got: nat, failed: bool, next: nat, pending: seq<Job>, built: map<nat, Outcome>) {
    && c.from <= next <= got
    && |pending| == next - c.from + (if failed then 1 else 0)
    && (forall k :: 0 <= k < |pending| ==> Own(built, c.from + k, pending[k]))
    && (forall k :: 0 <= k < |pending| ==> (pending[k].outcome.Failed? <==> c.from + k == next))
  }

  ghost predicate InvCollector(c: Config, s: State) {
    && (s.coll.Tail? ==> s.disp.Finished? && s.recv == |s.results|)
    && !s.coll.TailPush?
    && (s.coll == Done(Completed) ==> s.next == c.target + 1)
    && (s.coll == Done(Cancelled) ==> s.cancelled)
  }

  ghost predicate AllRows(rows: set<nat>, lo: nat, hi: nat) {
    forall e :: lo <= e < hi ==> e in rows
  }

  ghost predicate InvConsumer(c: Config, d: Db, s: State) {
    && c.from <= s.resume <= c.from + s.taken
    && s.resume <= s.next
    && s.taken <= |s.pending| <= s.taken + c.workers + 1
    && AllRows(d.rows, c.from, s.resume)
    && match s.cons
       case Ready => s.resume == c.from + s.taken && (s.taken == |s.pending| ==> s.coll != Done(AfterError))
       case Persist(j) => HandlingJob(c, s, j) && j.outcome.Built? && j.outcome.be.epoch == j.epoch
       case SaveBlobs(j) => HandlingJob(c, s, j) && j.epoch in d.rows && j.outcome.Built?
       case SetCursor(j) => HandlingJob(c, s, j) && j.epoch in d.rows
       case Drain => s.cancelled
       case AwaitDispatch(err) => Ending(c, s, err)
       case AwaitProducer(err) => Ending(c, s, err) && (s.disp.Finished? || s.disp.Abandoned?)
       case Returned(r, err) =>
         && r == s.resume
         && Ending(c, s, err)
         && (!err ==> s.coll == Done(Completed))
         && (s.disp.Finished? || s.disp.Abandoned?)
  }

  ghost predicate HandlingJob(c: Config, s: State, j: Job) {
    && 1 <= s.taken <= |s.pending|
    && j == s.pending[s.taken - 1]
    && !j.outcome.Failed?
    && j.epoch == s.resume == c.from + s.taken - 1
  }

  ghost predicate Ending(c: Config, s: State, err: bool) {
    && s.coll.Done?
    && (err ==> s.cancelled)
    && (!err ==> s.taken == |s.pending| && s.resume == c.from + s.taken && s.coll.end != AfterError)
  }

  ghost predicate InvPlaces(c: Config, s: State) {
    && InvTaken(c, s.got, s.place)
    && InvWorkers(c, s.workers, s.place)
    && InvResults(c, s.results, s.recv, s.place)
    && InvCollected(s.reorder, s.coll, s.next, s.place)
  }

  ghost predicate InvOwn(d: Db, s: State) {
    && InvBuilt(d.rows, s.place, s.built)
    && OwnWorkers(s.workers, s.built)
    && OwnResults(s.results, s.built)
    && OwnReorder(s.reorder, s.coll, s.next, s.built)
  }

  ghost predicate InvControl(c: Config, s: State) {
    && InvDispatch(c, s.sent, s.got, s.disp, s.cancelled)
    && InvExit(s.sent, s.got, s.disp, s.workers, s.built)
    && InvCollector(c, s)
    && InvPending(c, s.got, s.coll == Done(AfterError), s.next, s.pending, s.built)
  }

  ghost predicate Inv(c: Config, d: Db, s: State) {
    && c.Valid()
    && InvPlaces(c, s)
    && InvOwn(d, s)
    && InvControl(c, s)
    && InvConsumer(c, d, s)
  }

  // ---------------------------------------------------------------------------------
  // Every action keeps the invariant
  // ---------------------------------------------------------------------------------

  lemma InitInv(c: Config, d: Db)
    requires c.Valid()
    ensures Inv(c, d, Init(c))
  {}

  /** Rows only ever appear, and nothing in the invariant minds more of them. */
  lemma RowsGrow(c: Config, d: Db, d': Db, s: State)
    requires Inv(c, d, s) && d.rows <= d'.rows
    ensures Inv(c, d', s)
  {}

  /** The fields that the dispatcher, the consumer and a cancellation leave alone. */
  ghost predicate SameWork(s: State, t: State) {
    && t.got == s.got && t.workers == s.workers && t.results == s.results && t.recv == s.recv
    && t.coll == s.coll && t.reorder == s.reorder && t.next == s.next && t.pending == s.pending
    && t.place == s.place && t.built == s.built
  }

  lemma SamePlaces(c: Config, s: State, t: State)
    requires InvPlaces(c, s) && SameWork(s, t)
    ensures InvPlaces(c, t)
  {}

  lemma SameOwn(d: Db, d': Db, s: State, t: State)
    requires InvOwn(d, s) && SameWork(s, t) && d.rows <= d'.rows
    ensures InvOwn(d', t)
  {}

  lemma DispatcherFrame(s: State, m: DispatcherMove)
    ensures SameWork(s, Dispatched(s, m))
  {}

  lemma DispatcherControl(c: Config, s: State, m: DispatcherMove)
    requires InvControl(c, s) && CanDispatch(c, s, m)
    ensures InvControl(c, Dispatched(s, m))
  {}

  lemma DispatcherConsumer(c: Config, d: Db, s: State, m: DispatcherMove)
    requires InvConsumer(c, d, s) && CanDispatch(c, s, m)
    ensures InvConsumer(c, d, Dispatched(s, m))
  {}

  lemma DispatcherKeeps(c: Config, d: Db, s: State, m: DispatcherMove)
    requires Inv(c, d, s) && CanDispatch(c, s, m)
    ensures Inv(c, d, Dispatched(s, m))
  {
    DispatcherFrame(s, m);
    SamePlaces(c, s, Dispatched(s, m));
    SameOwn(d, d, s, Dispatched(s, m));
    DispatcherControl(c, s, m);
    DispatcherConsumer(c, d, s, m);
  }

  lemma WorkerPlaces(c: Config, rows: set<nat>, s: State, i: nat, m: WorkerMove)
    requires InvPlaces(c, s) && CanWork(c, rows, s, i, m) && c.from <= s.next <= s.got
    ensures InvPlaces(c, Worked(c, rows, s, i, m))
  {
    WorkerHands(c, rows, s, i, m);
    WorkerResults(c, rows, s, i, m);
    WorkerCollected(c, rows, s, i, m);
  }

  lemma WorkerResults(c: Config, rows: set<nat>, s: State, i: nat, m: WorkerMove)
    requires InvTaken(c, s.got, s.place) && InvWorkers(c, s.workers, s.place) && InvResults(c, s.results, s.recv, s.place)
    requires CanWork(c, rows, s, i, m)
    ensures var t := Worked(c, rows, s, i, m); InvResults(c, t.results, t.recv, t.place)
  {
    if m.WTake? {
      ResultsTake(c, s.results, s.recv, s.place, s.got, i);
    } else if m.WPost? {
      assert s.workers[i].Holding();
      ResultsPost(c, s.results, s.recv, s.place, s.workers[i].job);
    }
  }

  lemma ResultsTake(c: Config, results: seq<Job>, recv: nat, place: map<nat, Place>, e: nat, i: nat)
    requires InvResults(c, results, recv, place) && e !in place
    ensures InvResults(c, results, recv, place[e := AtWorker(i)])
  {}

  lemma ResultsPost(c: Config, results: seq<Job>, recv: nat, place: map<nat, Place>, j: Job)
    requires InvResults(c, results, recv, place) && j.epoch in place && place[j.epoch].AtWorker?
    requires |results| < recv + c.workers
    ensures InvResults(c, results + [j], recv, place[j.epoch := Buffered(|results|)])
  {}

  lemma WorkerCollected(c: Config, rows: set<nat>, s: State, i: nat, m: WorkerMove)
    requires InvTaken(c, s.got, s.place) && InvWorkers(c, s.workers, s.place)
    requires InvCollected(s.reorder, s.coll, s.next, s.place) && CanWork(c, rows, s, i, m) && s.next <= s.got
    ensures var t := Worked(c, rows, s, i, m); InvCollected(t.reorder, t.coll, t.next, t.place)
  {
    if m.WTake? {
      UpstreamOnly(s.reorder, s.coll, s.next, s.place, s.got, AtWorker(i));
    } else if m.WPost? {
      UpstreamOnly(s.reorder, s.coll, s.next, s.place, s.workers[i].job.epoch, Buffered(|s.results|));
    }
  }

  /** The collector's side is not concerned by an epoch that has not reached it. */
  lemma UpstreamOnly(reorder: map<nat, Job>, coll: Collector, next: nat, place: map<nat, Place>, e: nat, p: Place)
    requires InvCollected(reorder, coll, next, place) && (p.AtWorker? || p.Buffered?)
    requires if e in place then place[e].AtWorker? else next <= e
    ensures InvCollected(reorder, coll, next, place[e := p])
  {}

  lemma WorkerHands(c: Config, rows: set<nat>, s: State, i: nat, m: WorkerMove)
    requires InvTaken(c, s.got, s.place) && InvWorkers(c, s.workers, s.place) && CanWork(c, rows, s, i, m)
    requires c.from <= s.got
    ensures InvTaken(c, Worked(c, rows, s, i, m).got, Worked(c, rows, s, i, m).place)
    ensures InvWorkers(c, Worked(c, rows, s, i, m).workers, Worked(c, rows, s, i, m).place)
  {
    var w' := Worked(c, rows, s, i, m).workers[i];
    if m.WTake? {
      HandsTake(c, s.workers, s.place, i, s.got);
    } else if m.WPost? || m.WExit? {
      HandsDrop(c, s.workers, s.place, i, w', Buffered(|s.results|));
    } else {
      HandsSame(c, s.workers, s.place, i, w');
    }
  }

  lemma HandsTake(c: Config, ws: seq<Worker>, place: map<nat, Place>, i: nat, e: nat)
    requires InvWorkers(c, ws, place) && i < |ws| && !ws[i].Holding() && e !in place
    ensures InvWorkers(c, ws[i := Checking(e)], place[e := AtWorker(i)])
  {}

  lemma HandsSame(c: Config, ws: seq<Worker>, place: map<nat, Place>, i: nat, w: Worker)
    requires InvWorkers(c, ws, place) && i < |ws| && ws[i].Holding() && w.Holding() && w.Epoch() == ws[i].Epoch()
    ensures InvWorkers(c, ws[i := w], place)
  {}

  lemma HandsDrop(c: Config, ws: seq<Worker>, place: map<nat, Place>, i: nat, w: Worker, p: Place)
    requires InvWorkers(c, ws, place) && i < |ws| && !w.Holding() && !p.AtWorker?
    ensures InvWorkers(c, ws[i := w], if ws[i].Holding() then place[ws[i].Epoch() := p] else place)
  {}

  lemma WorkerOwn(c: Config, d: Db, s: State, i: nat, m: WorkerMove)
    requires InvPlaces(c, s) && InvOwn(d, s) && CanWork(c, d.rows, s, i, m)
    ensures InvOwn(d, Worked(c, d.rows, s, i, m))
  {
    var s' := Worked(c, d.rows, s, i, m);
    if m.WSkip? || m.WBuilt? || m.WFail? {
      ReportOwn(d, s, i, s'.built[s.workers[i].epoch]);
    } else {
      assert OwnWorkers(s'.workers, s'.built);
    }
  }

  lemma ReportOwn(d: Db, s: State, i: nat, o: Outcome)
    requires InvOwn(d, s) && i < |s.workers| && (s.workers[i].Checking? || s.workers[i].Building?)
    requires s.workers[i].epoch in s.place && s.place[s.workers[i].epoch] == AtWorker(i)
    requires forall j :: 0 <= j < |s.workers| && s.workers[j].Holding() && s.workers[j].Epoch() == s.workers[i].epoch ==> j == i
    requires o.Skipped? ==> s.workers[i].epoch in d.rows
    requires o.Built? ==> o.be.epoch == s.workers[i].epoch
    ensures InvOwn(d, Report(s, i, o))
  {}

  lemma WorkerExit(c: Config, rows: set<nat>, s: State, i: nat, m: WorkerMove)
    requires OwnWorkers(s.workers, s.built) && InvExit(s.sent, s.got, s.disp, s.workers, s.built) && CanWork(c, rows, s, i, m)
    ensures var t := Worked(c, rows, s, i, m); InvExit(t.sent, t.got, t.disp, t.workers, t.built)
  {}

  lemma WorkerPending(c: Config, rows: set<nat>, s: State, i: nat, m: WorkerMove)
    requires OwnWorkers(s.workers, s.built) && CanWork(c, rows, s, i, m)
    requires InvPending(c, s.got, s.coll == Done(AfterError), s.next, s.pending, s.built)
    ensures var t := Worked(c, rows, s, i, m); InvPending(c, t.got, t.coll == Done(AfterError), t.next, t.pending, t.built)
  {}

  lemma WorkerControl(c: Config, d: Db, s: State, i: nat, m: WorkerMove)
    requires OwnWorkers(s.workers, s.built) && InvControl(c, s) && CanWork(c, d.rows, s, i, m)
    ensures InvControl(c, Worked(c, d.rows, s, i, m))
  {
    WorkerExit(c, d.rows, s, i, m);
    WorkerPending(c, d.rows, s, i, m);
  }

  lemma WorkerConsumer(c: Config, d: Db, s: State, i: nat, m: WorkerMove)
    requires InvConsumer(c, d, s) && CanWork(c, d.rows, s, i, m)
    ensures InvConsumer(c, d, Worked(c, d.rows, s, i, m))
  {}

  lemma CollectorPlaces(c: Config, s: State, m: CollectorMove)
    requires InvPlaces(c, s) && CanCollect(c, s, m) && !s.coll.TailPush? && !m.CTailPick?
    ensures InvPlaces(c, Collected(c, s, m))
  {
    if m.CTake? {
      ReceivePlaces(c, s, s.results[s.recv]);
    } else if m.CPick? {
      Elsewhere(c, s, s.next, InHand);
      PickPlaces(s.reorder, s.next, s.place, Push(s.reorder[s.next]));
    } else if m.CPush? {
      Elsewhere(c, s, s.next, Delivered);
      PushPlaces(s.reorder, s.coll, s.next, s.place);
    }
  }

  lemma ReceivePlaces(c: Config, s: State, r: Job)
    requires InvPlaces(c, s) && s.coll.Recv? && s.recv < |s.results| && r == s.results[s.recv]
    ensures InvTaken(c, s.got, s.place[r.epoch := Held])
    ensures InvWorkers(c, s.workers, s.place[r.epoch := Held])
    ensures InvResults(c, s.results, s.recv + 1, s.place[r.epoch := Held])
    ensures InvCollected(s.reorder[r.epoch := r], Flush, s.next, s.place[r.epoch := Held])
  {}

  /** Moving an epoch between the collector's stages concerns neither workers nor channel. */
  lemma Elsewhere(c: Config, s: State, e: nat, p: Place)
    requires InvPlaces(c, s) && e in s.place && (s.place[e].Held? || s.place[e].InHand?) && (p.InHand? || p.Delivered?)
    ensures InvTaken(c, s.got, s.place[e := p])
    ensures InvWorkers(c, s.workers, s.place[e := p])
    ensures InvResults(c, s.results, s.recv, s.place[e := p])
  {}

  lemma PickPlaces(reorder: map<nat, Job>, next: nat, place: map<nat, Place>, k: Collector)
    requires InvCollected(reorder, Flush, next, place) && next in reorder && k.Push?
    ensures InvCollected(reorder - {next}, k, next, place[next := InHand])
  {}

  lemma PushPlaces(reorder: map<nat, Job>, coll: Collector, next: nat, place: map<nat, Place>)
    requires InvCollected(reorder, coll, next, place) && coll.Push?
    ensures InvCollected(reorder, Flush, next + 1, place[next := Delivered])
    ensures InvCollected(reorder, Done(AfterError), next, place[next := Delivered])
  {}

  lemma CollectorOwn(c: Config, d: Db, s: State, m: CollectorMove)
    requires InvPlaces(c, s) && InvOwn(d, s) && CanCollect(c, s, m) && !s.coll.TailPush? && !m.CTailPick?
    ensures InvOwn(d, Collected(c, s, m))
  {
    CollectorFrame(c, s, m);
    CollectorBuilt(c, d, s, m);
    CollectorReorder(c, s, m);
  }

  lemma CollectorBuilt(c: Config, d: Db, s: State, m: CollectorMove)
    requires InvBuilt(d.rows, s.place, s.built) && CanCollect(c, s, m)
    ensures InvBuilt(d.rows, Collected(c, s, m).place, s.built)
  {}

  lemma CollectorReorder(c: Config, s: State, m: CollectorMove)
    requires OwnReorder(s.reorder, s.coll, s.next, s.built) && OwnResults(s.results, s.built)
    requires CanCollect(c, s, m) && !s.coll.TailPush? && !m.CTailPick?
    ensures var t := Collected(c, s, m); OwnReorder(t.reorder, t.coll, t.next, s.built)
  {}

  /** One more job on `pending`: the next epoch's own. */
  lemma PendingGrows(c: Config, got: nat, next: nat, pending: seq<Job>, built: map<nat, Outcome>, j: Job)
    requires InvPending(c, got, false, next, pending, built) && next < got && Own(built, next, j)
    ensures j.outcome.Failed? ==> InvPending(c, got, true, next, pending + [j], built)
    ensures !j.outcome.Failed? ==> InvPending(c, got, false, next + 1, pending + [j], built)
  {}

  lemma CollectorPending(c: Config, s: State, m: CollectorMove)
    requires InvPending(c, s.got, s.coll == Done(AfterError), s.next, s.pending, s.built)
    requires CanCollect(c, s, m) && !s.coll.TailPush? && !m.CTailPick?
    requires s.coll.Push? ==> s.next < s.got && Own(s.built, s.next, s.coll.job)
    ensures var t := Collected(c, s, m); InvPending(c, t.got, t.coll == Done(AfterError), t.next, t.pending, t.built)
  {
    if m.CPush? {
      PendingGrows(c, s.got, s.next, s.pending, s.built, s.coll.job);
    }
  }

  /** The collector's moves leave the dispatcher and the pool as they are. */
  lemma CollectorFrame(c: Config, s: State, m: CollectorMove)
    requires CanCollect(c, s, m)
    ensures var t := Collected(c, s, m);
            && t.sent == s.sent && t.got == s.got && t.disp == s.disp && t.workers == s.workers && t.built == s.built
            && t.cancelled == s.cancelled && t.results == s.results
  {}

  lemma CollectorPhase(c: Config, s: State, m: CollectorMove)
    requires InvCollector(c, s) && CanCollect(c, s, m) && !m.CTailPick?
    requires m.CEnd? ==> s.next == c.target + 1
    ensures InvCollector(c, Collected(c, s, m))
  {}

  lemma CollectorControl(c: Config, s: State, m: CollectorMove)
    requires InvControl(c, s) && CanCollect(c, s, m) && !m.CTailPick?
    requires s.coll.Push? ==> s.next < s.got && Own(s.built, s.next, s.coll.job)
    requires m.CEnd? ==> s.next == c.target + 1
    ensures InvControl(c, Collected(c, s, m))
  {
    CollectorFrame(c, s, m);
    CollectorPhase(c, s, m);
    CollectorPending(c, s, m);
  }

  lemma CollectorConsumer(c: Config, d: Db, s: State, m: CollectorMove)
    requires InvConsumer(c, d, s) && CanCollect(c, s, m) && !m.CTailPick? && !s.coll.TailPush?
    ensures InvConsumer(c, d, Collected(c, s, m))
  {}

  lemma DeliveredOk(c: Config, d: Db, s: State)
    requires Inv(c, d, s)
    ensures forall e :: c.from <= e < s.next ==> e in s.built && !s.built[e].Failed?
  {
    forall e | c.from <= e < s.next
      ensures e in s.built && !s.built[e].Failed?
    {
      assert Own(s.built, c.from + (e - c.from), s.pending[e - c.from]);
    }
  }

  /** The flush after the result channel is closed finds nothing to send: by then every
      epoch of the range has been delivered. */
  lemma TailIsComplete(c: Config, d: Db, s: State)
    requires Inv(c, d, s) && s.coll.Tail?
    ensures s.next == c.target + 1 && s.next !in s.reorder
  {
    DeliveredOk(c, d, s);
    assert s.next == s.got;
    assert s.workers[0].Exited();
  }

  lemma ConsumerFrame(d: Db, s: State, m: ConsumerMove)
    requires CanConsume(s, m)
    ensures var t := Consumed(s, m);
            SameWork(s, t) && t.sent == s.sent && t.disp == s.disp && (s.cancelled ==> t.cancelled)
    ensures d.rows <= Written(d, s, m).rows
  {}

  lemma SameControl(c: Config, s: State, t: State)
    requires InvControl(c, s) && SameWork(s, t) && t.sent == s.sent && t.disp == s.disp && (s.cancelled ==> t.cancelled)
    ensures InvControl(c, t)
  {}

  lemma ConsumerKeeps(c: Config, d: Db, s: State, m: ConsumerMove)
    requires Inv(c, d, s) && CanConsume(s, m)
    ensures Inv(c, Written(d, s, m), Consumed(s, m))
  {
    ConsumerFrame(d, s, m);
    SamePlaces(c, s, Consumed(s, m));
    SameOwn(d, Written(d, s, m), s, Consumed(s, m));
    SameControl(c, s, Consumed(s, m));
    ConsumerSelf(c, d, s, m);
  }

  lemma ConsumerSelf(c: Config, d: Db, s: State, m: ConsumerMove)
    requires InvConsumer(c, d, s) && InvControl(c, s) && InvBuilt(d.rows, s.place, s.built) && CanConsume(s, m)
    ensures InvConsumer(c, Written(d, s, m), Consumed(s, m))
  {
    if m.KTake? {
      ConsumerTakes(c, d, s);
    } else {
      ConsumerMoves(c, d, s, m);
    }
  }

  lemma ConsumerTakes(c: Config, d: Db, s: State)
    requires InvConsumer(c, d, s) && InvControl(c, s) && InvBuilt(d.rows, s.place, s.built) && CanConsume(s, KTake)
    ensures InvConsumer(c, d, Consumed(s, KTake))
  {
    assert Own(s.built, c.from + s.taken, s.pending[s.taken]);
  }

  lemma ConsumerMoves(c: Config, d: Db, s: State, m: ConsumerMove)
    requires InvConsumer(c, d, s) && InvControl(c, s) && CanConsume(s, m) && !m.KTake?
    ensures InvConsumer(c, Written(d, s, m), Consumed(s, m))
  {}

  lemma WorkerKeeps(c: Config, d: Db, s: State, i: nat, m: WorkerMove)
    requires Inv(c, d, s) && CanWork(c, d.rows, s, i, m)
    ensures Inv(c, d, Worked(c, d.rows, s, i, m))
  {
    WorkerPlaces(c, d.rows, s, i, m);
    WorkerOwn(c, d, s, i, m);
    WorkerControl(c, d, s, i, m);
    WorkerConsumer(c, d, s, i, m);
  }

  lemma CollectorKeeps(c: Config, d: Db, s: State, m: CollectorMove)
    requires Inv(c, d, s) && CanCollect(c, s, m)
    ensures Inv(c, d, Collected(c, s, m))
  {
    if s.coll.Tail? { TailIsComplete(c, d, s); }
    CollectorPlaces(c, s, m);
    CollectorOwn(c, d, s, m);
    assert s.coll.Push? ==> s.next < s.got && Own(s.built, s.next, s.coll.job);
    CollectorControl(c, s, m);
    CollectorConsumer(c, d, s, m);
  }

  lemma CancelKeeps(c: Config, d: Db, s: State)
    requires Inv(c, d, s)
    ensures Inv(c, d, s.(cancelled := true))
  {
    var t := s.(cancelled := true);
    SamePlaces(c, s, t);
    SameOwn(d, d, s, t);
    SameControl(c, s, t);
  }

  /** Every action of every actor, and every move of the outside world, keeps the invariant. */
  lemma StepKeeps(c: Config, d: Db, s: State, a: Action)
    requires Inv(c, d, s) && Enabled(c, d, s, a)
    ensures Inv(c, DbAfter(c, d, s, a), After(c, d, s, a))
  {
    match a
    case Dispatch(m) => DispatcherKeeps(c, d, s, m);
    case Work(i, m) => WorkerKeeps(c, d, s, i, m);
    case Collect(m) => CollectorKeeps(c, d, s, m);
    case Consume(m) => ConsumerKeeps(c, d, s, m);
    case Cancel => CancelKeeps(c, d, s);
    case AddRow(_) => RowsGrow(c, d, DbAfter(c, d, s, a), s);
  }

  // ---------------------------------------------------------------------------------
  // Runs
  // ---------------------------------------------------------------------------------

  datatype Snap = Snap(d: Db, s: State)

  function Step(c: Config, x: Snap, a: Action): Snap
    requires Enabled(c, x.d, x.s, a)
  {
    Snap(DbAfter(c, x.d, x.s, a), After(c, x.d, x.s, a))
  }

  /** The state a schedule leads to, if every action in it was possible when its turn came. */
  function Exec(c: Config, x: Snap, run: seq<Action>): Option<Snap>
    decreases |run|
  {
    if run == [] then Some(x)
    else if !Enabled(c, x.d, x.s, run[0]) then None
    else Exec(c, Step(c, x, run[0]), run[1..])
  }

  ghost predicate Reachable(c: Config, d: Db, x: Snap) {
    exists run :: Exec(c, Snap(d, Init(c)), run) == Some(x)
  }

  lemma {:induction false} ExecKeeps(c: Config, x: Snap, run: seq<Action>)
    requires Inv(c, x.d, x.s) && Exec(c, x, run).Some?
    ensures var y := Exec(c, x, run).value; Inv(c, y.d, y.s) && x.d.rows <= y.d.rows
    decreases |run|
  {
    if run != [] {
      StepKeeps(c, x.d, x.s, run[0]);
      ExecKeeps(c, Step(c, x, run[0]), run[1..]);
    }
  }

  lemma ReachableInv(c: Config, d: Db, x: Snap)
    requires c.Valid() && Reachable(c, d, x)
    ensures Inv(c, x.d, x.s) && d.rows <= x.d.rows
  {
    var run :| Exec(c, Snap(d, Init(c)), run) == Some(x);
    InitInv(c, d);
    ExecKeeps(c, Snap(d, Init(c)), run);
  }

  /** The k-th job sent to the consumer is epoch from + k's own. */
  ghost predicate OrderedJob(c: Config, x: Snap, k: nat)
    requires k < |x.s.pending|
  {
    var j := x.s.pending[k];
    && j.epoch == c.from + k <= c.target
    && j.epoch in x.s.built && j.outcome == x.s.built[j.epoch]
    && (j.outcome.Built? ==> j.outcome.be.epoch == j.epoch)
    && (j.outcome.Skipped? ==> j.epoch in x.d.rows)
    && (j.outcome.Failed? ==> k == |x.s.pending| - 1)
  }

  /** Strict order for every schedule: what the consumer has been sent is from, from+1,
      from+2, ... without gap, repeat or swap, each job carrying the outcome recorded for
      its own epoch, with an error only in the last place; and the flush that follows the
      closing of the result channel has nothing left to send. */
  lemma InOrder(c: Config, d: Db, x: Snap)
    requires c.Valid() && Reachable(c, d, x)
    ensures forall k :: 0 <= k < |x.s.pending| ==> OrderedJob(c, x, k)
    ensures !x.s.coll.TailPush? && (x.s.coll.Tail? ==> x.s.next !in x.s.reorder)
  {
    ReachableInv(c, d, x);
    forall k | 0 <= k < |x.s.pending|
      ensures OrderedJob(c, x, k)
    {
      JobIsOrdered(c, x, k);
    }
  }

  lemma JobIsOrdered(c: Config, x: Snap, k: nat)
    requires Inv(c, x.d, x.s) && k < |x.s.pending|
    ensures OrderedJob(c, x, k)
  {
    assert Own(x.s.built, c.from + k, x.s.pending[k]);
    assert c.from + k in x.s.place;
  }

  lemma WorkerHistory(c: Config, rows: set<nat>, s: State, i: nat, m: WorkerMove)
    requires OwnWorkers(s.workers, s.built) && CanWork(c, rows, s, i, m)
    ensures var s' := Worked(c, rows, s, i, m);
            s'.pending == s.pending && forall e :: e in s.built ==> e in s'.built && s'.built[e] == s.built[e]
  {}

  lemma CollectorHistory(c: Config, s: State, m: CollectorMove)
    requires CanCollect(c, s, m)
    ensures s.pending <= Collected(c, s, m).pending && Collected(c, s, m).built == s.built
  {}

  lemma ConsumerHistory(s: State, m: ConsumerMove)
    requires CanConsume(s, m)
    ensures Consumed(s, m).pending == s.pending && Consumed(s, m).built == s.built
  {}

  /** The outcome recorded for an epoch is the first and only one: no later action replaces
      it, and neither does any action take back a job already sent to the consumer. */
  lemma HistoryGrows(c: Config, d: Db, s: State, a: Action)
    requires OwnWorkers(s.workers, s.built) && Enabled(c, d, s, a)
    ensures s.pending <= After(c, d, s, a).pending
    ensures forall e :: e in s.built ==> e in After(c, d, s, a).built && After(c, d, s, a).built[e] == s.built[e]
  {
    match a
    case Work(i, m) => WorkerHistory(c, d.rows, s, i, m);
    case Collect(m) => CollectorHistory(c, s, m);
    case Consume(m) => ConsumerHistory(s, m);
    case _ =>
  }

  /** What an attempt returns: without an error, target + 1 with a row for every epoch of the
      range; with one, a resume point in the range below which every epoch has a row. */
  lemma ReturnsResumePoint(c: Config, d: Db, x: Snap)
    requires c.Valid() && Reachable(c, d, x) && x.s.cons.Returned?
    ensures c.from <= x.s.cons.resume <= c.target + 1
    ensures AllRows(x.d.rows, c.from, x.s.cons.resume)
    ensures !x.s.cons.err ==> x.s.cons.resume == c.target + 1
    ensures x.s.cons.err ==> x.s.cancelled
  {
    ReachableInv(c, d, x);
  }

  // ---------------------------------------------------------------------------------
  // Termination: every schedule is finite
  // ---------------------------------------------------------------------------------

  function WorkerWeight(w: Worker): nat {
    match w
    case Checking(_) => 7
    case Building(_) => 6
    case Posting(_) => 5
    case Idle => 1
    case _ => 0
  }

  function PoolWeight(ws: seq<Worker>): nat {
    if ws == [] then 0 else WorkerWeight(ws[0]) + PoolWeight(ws[1..])
  }

  lemma {:induction false} PoolUpdate(ws: seq<Worker>, i: nat, w: Worker)
    requires i < |ws|
    ensures PoolWeight(ws[i := w]) == PoolWeight(ws) - WorkerWeight(ws[i]) + WorkerWeight(w)
    decreases |ws|
  {
    if i == 0 {
      assert ws[0 := w][1..] == ws[1..];
    } else {
      PoolUpdate(ws[1..], i - 1, w);
      assert ws[i := w][1..] == ws[1..][i - 1 := w];
    }
  }

  function CollectorWeight(k: Collector): nat {
    match k
    case Flush => 7
    case Push(_) => 6
    case Recv => 5
    case Tail => 4
    case TailPush(_) => 3
    case Done(_) => 0
  }

  function ConsumerWeight(k: Consumer): nat {
    match k
    case Persist(_) => 9
    case SaveBlobs(_) => 8
    case SetCursor(_) => 7
    case Ready => 5
    case Drain => 4
    case AwaitDispatch(_) => 3
    case AwaitProducer(_) => 2
    case Returned(_, _) => 1
  }

  function Unconsumed(s: State): int {
    5 * (|s.pending| - s.taken) + ConsumerWeight(s.cons) + (if s.cancelled then 0 else 1)
  }

  /** What is left to do: epochs still to send, take and deliver, items in the channels, and
      how far each actor is from its end. */
  function Measure(c: Config, s: State): int {
    (c.target + 1 - s.sent) + 7 * (c.target + 1 - s.got) + 7 * (c.target + 1 - s.next)
    + (if s.disp.Sending? then 2 else if s.disp.Waiting? then 1 else 0)
    + PoolWeight(s.workers)
    + 3 * (|s.results| - s.recv)
    + CollectorWeight(s.coll)
    + Unconsumed(s)
  }

  lemma WorkerProgress(c: Config, rows: set<nat>, s: State, i: nat, m: WorkerMove)
    requires CanWork(c, rows, s, i, m)
    ensures Measure(c, Worked(c, rows, s, i, m)) < Measure(c, s)
  {
    PoolUpdate(s.workers, i, Worked(c, rows, s, i, m).workers[i]);
  }

  lemma CollectorProgress(c: Config, s: State, m: CollectorMove)
    requires CanCollect(c, s, m) && !s.coll.TailPush? && !m.CTailPick?
    ensures Measure(c, Collected(c, s, m)) < Measure(c, s)
  {}

  lemma ConsumerAdvances(s: State, m: ConsumerMove)
    requires CanConsume(s, m)
    ensures Unconsumed(Consumed(s, m)) < Unconsumed(s)
  {}

  lemma ConsumerProgress(c: Config, d: Db, s: State, m: ConsumerMove)
    requires CanConsume(s, m)
    ensures Measure(c, Consumed(s, m)) < Measure(c, s)
  {
    ConsumerFrame(d, s, m);
    ConsumerAdvances(s, m);
  }

  lemma DispatcherProgress(c: Config, s: State, m: DispatcherMove)
    requires CanDispatch(c, s, m)
    ensures Measure(c, Dispatched(s, m)) < Measure(c, s)
  {}

  lemma MoveProgress(c: Config, d: Db, s: State, a: Action)
    requires Enabled(c, d, s, a) && !s.coll.TailPush? && a != Collect(CTailPick)
    ensures a.AddRow? ==> Measure(c, After(c, d, s, a)) == Measure(c, s)
    ensures !a.AddRow? ==> Measure(c, After(c, d, s, a)) < Measure(c, s)
  {
    match a
    case Dispatch(m) => DispatcherProgress(c, s, m);
    case Work(i, m) => WorkerProgress(c, d.rows, s, i, m);
    case Collect(m) => CollectorProgress(c, s, m);
    case Consume(m) => ConsumerProgress(c, d, s, m);
    case _ =>
  }

  /** Every action but the arrival of a foreign row brings the attempt closer to its end. */
  lemma StepProgress(c: Config, d: Db, s: State, a: Action)
    requires Inv(c, d, s) && Enabled(c, d, s, a)
    ensures a.AddRow? ==> Measure(c, After(c, d, s, a)) == Measure(c, s)
    ensures !a.AddRow? ==> Measure(c, After(c, d, s, a)) < Measure(c, s)
  {
    if s.coll.Tail? { TailIsComplete(c, d, s); }
    MoveProgress(c, d, s, a);
  }

  function Moves(run: seq<Action>): nat {
    if run == [] then 0 else (if run[0].AddRow? then 0 else 1) + Moves(run[1..])
  }

  lemma {:induction false} RunBounded(c: Config, x: Snap, run: seq<Action>)
    requires Inv(c, x.d, x.s) && Exec(c, x, run).Some?
    ensures Moves(run) <= Measure(c, x.s)
    decreases |run|
  {
    if run == [] {
      assert 0 <= Measure(c, x.s);
    } else {
      StepProgress(c, x.d, x.s, run[0]);
      StepKeeps(c, x.d, x.s, run[0]);
      RunBounded(c, Step(c, x, run[0]), run[1..]);
    }
  }

  lemma {:induction false} IdlePool(n: nat)
    ensures PoolWeight(seq(n, i => Idle)) == n
  {
    if n > 0 {
      IdlePool(n - 1);
      assert seq(n, i => Idle)[1..] == seq(n - 1, i => Idle);
    }
  }

  /** Whatever fails and whoever cancels, an attempt makes at most 15 moves per epoch plus
      one per worker and a constant. */
  lemma EveryScheduleIsFinite(c: Config, d: Db, run: seq<Action>)
    requires c.Valid() && Exec(c, Snap(d, Init(c)), run).Some?
    ensures Moves(run) <= 15 * c.Total() + c.workers + 13
  {
    InitInv(c, d);
    IdlePool(c.workers);
    RunBounded(c, Snap(d, Init(c)), run);
  }

  // ---------------------------------------------------------------------------------
  // Which ends a schedule can have
  // ---------------------------------------------------------------------------------

  ghost predicate Halted(c: Config, d: Db, s: State) {
    forall a: Action :: a.Internal() ==> !Enabled(c, d, s, a)
  }

  /** The dispatcher left on cancellation, which does not close the result channel; the
      workers are gone, so the collector and behind it the consumer wait for ever. */
  ghost predicate Orphaned(s: State) {
    && s.disp.Abandoned? && AllExited(s)
    && s.coll.Recv? && s.recv == |s.results|
    && (s.cons.Ready? || s.cons.Drain?) && s.taken == |s.pending|
  }

  /** The collector left early; some worker cannot post to the full result channel, the
      dispatcher waits for that worker and the consumer for the dispatcher. */
  ghost predicate Clogged(c: Config, s: State) {
    && s.disp.Waiting? && s.coll.Done? && s.cons.AwaitDispatch?
    && |s.results| == s.recv + c.workers
    && (forall i :: 0 <= i < |s.workers| ==> s.workers[i].Exited() || s.workers[i].Posting?)
    && !AllExited(s)
  }

  lemma OrphanedHalts(c: Config, d: Db, s: State)
    requires Inv(c, d, s) && Orphaned(s)
    ensures Halted(c, d, s)
  {}

  lemma CloggedHalts(c: Config, d: Db, s: State)
    requires Inv(c, d, s) && Clogged(c, s)
    ensures Halted(c, d, s)
  {}

  /** With nothing on the result channel and no worker left, the collector holds the next
      epoch: so a dead pool never starves it before the failure has been passed on. */
  lemma DeadPoolDelivers(c: Config, d: Db, s: State)
    requires Inv(c, d, s) && AllExited(s) && s.recv == |s.results| && s.coll.Recv?
    ensures !s.disp.Sending?
  {
    DeliveredOk(c, d, s);
    assert s.next == s.got;
    assert s.workers[0].Exited();
  }

  lemma HaltedConsumer(c: Config, d: Db, s: State)
    requires InvConsumer(c, d, s) && Halted(c, d, s) && !s.cons.Returned?
    ensures !s.coll.Done? ==> (s.cons.Ready? || s.cons.Drain?) && s.taken == |s.pending|
    ensures s.coll.Done? ==> s.cons.AwaitDispatch? && !s.disp.Finished? && !s.disp.Abandoned?
  {
    assert !Enabled(c, d, s, Consume(KTake));
    assert !Enabled(c, d, s, Consume(KDrop));
    assert !Enabled(c, d, s, Consume(KEof));
    assert !Enabled(c, d, s, Consume(KFail));
    assert !Enabled(c, d, s, Consume(KDispatched));
    assert !Enabled(c, d, s, Consume(KReturn));
  }

  lemma HaltedCollector(c: Config, d: Db, s: State)
    requires c.Valid() && InvConsumer(c, d, s) && InvCollector(c, s) && s.recv <= |s.results| && Halted(c, d, s) && !s.cons.Returned?
    ensures s.coll.Done? || (s.coll.Recv? && s.recv == |s.results| && !s.disp.Finished?)
  {
    HaltedConsumer(c, d, s);
    assert !Enabled(c, d, s, Collect(CTake));
    assert !Enabled(c, d, s, Collect(CTail));
    assert !Enabled(c, d, s, Collect(CPick));
    assert !Enabled(c, d, s, Collect(CBack));
    assert !Enabled(c, d, s, Collect(CPush));
    assert !Enabled(c, d, s, Collect(CTailPick));
    assert !Enabled(c, d, s, Collect(CEnd));
  }

  lemma HaltedWorkers(c: Config, d: Db, s: State, i: nat)
    requires Halted(c, d, s) && i < |s.workers| && s.got <= s.sent && |s.results| <= s.recv + c.workers
    requires s.disp.Sending? ==> s.got < s.sent
    ensures s.workers[i].Exited() || (s.workers[i].Posting? && |s.results| == s.recv + c.workers)
  {
    assert !Enabled(c, d, s, Work(i, WTake));
    assert !Enabled(c, d, s, Work(i, WExit));
    assert !Enabled(c, d, s, Work(i, WFail));
    assert !Enabled(c, d, s, Work(i, WPost));
  }

  lemma HaltedDispatcher(c: Config, d: Db, s: State)
    requires Inv(c, d, s) && Halted(c, d, s) && !s.cons.Returned?
    ensures !s.disp.Sending?
  {
    assert !Enabled(c, d, s, Dispatch(Send));
    assert !Enabled(c, d, s, Dispatch(GiveUp));
    assert !Enabled(c, d, s, Dispatch(Close));
    HaltedCollector(c, d, s);
    HaltedConsumer(c, d, s);
    if s.disp.Sending? {
      forall i | 0 <= i < |s.workers|
        ensures s.workers[i].Exited() || (s.workers[i].Posting? && |s.results| == s.recv + c.workers)
      {
        HaltedWorkers(c, d, s, i);
      }
      if s.coll.Recv? {
        DeadPoolDelivers(c, d, s);
      }
    }
  }

  /** Exactly two ways not to return: a halted attempt has returned, or it is orphaned or
      clogged; and orphaned and clogged attempts are halted. */
  lemma HaltsIff(c: Config, d: Db, s: State)
    requires Inv(c, d, s)
    ensures Halted(c, d, s) && !s.cons.Returned? <==> Orphaned(s) || Clogged(c, s)
  {
    if Orphaned(s) { OrphanedHalts(c, d, s); }
    if Clogged(c, s) { CloggedHalts(c, d, s); }
    if Halted(c, d, s) && !s.cons.Returned? {
      HaltedDispatcher(c, d, s);
      HaltedCollector(c, d, s);
      HaltedConsumer(c, d, s);
      forall i | 0 <= i < |s.workers|
        ensures s.workers[i].Exited() || (s.workers[i].Posting? && |s.results| == s.recv + c.workers)
      {
        HaltedWorkers(c, d, s, i);
      }
      assert !Enabled(c, d, s, Dispatch(Finish));
    }
  }

  /** Both happen only after cancellation. */
  lemma StuckMeansCancelled(c: Config, d: Db, s: State)
    requires Inv(c, d, s) && (Orphaned(s) || Clogged(c, s))
    ensures s.cancelled
  {
    assert s.next == s.got ==> forall e :: e in s.place ==> s.place[e].Delivered?;
  }

  /** An attempt that is never cancelled - by the caller, or by a job or write that failed -
      cannot get stuck: when it can do no more, it has returned success, with every epoch of
      the range in the store. */
  lemma UncancelledCompletes(c: Config, d: Db, x: Snap)
    requires c.Valid() && Reachable(c, d, x) && !x.s.cancelled && Halted(c, x.d, x.s)
    ensures x.s.cons == Returned(c.target + 1, false)
    ensures AllRows(x.d.rows, c.from, c.target + 1)
  {
    ReachableInv(c, d, x);
    HaltsIff(c, x.d, x.s);
    if !x.s.cons.Returned? {
      StuckMeansCancelled(c, x.d, x.s);
    }
  }
}
