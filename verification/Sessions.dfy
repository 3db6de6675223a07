/**
 Sessions of the generator (Run, processLiveTick, runBackfill): a process that starts,
 anchors its live loop at the finalized tip, backfills history with the pipeline of module
 Pipeline, retries failed attempts, may crash at any moment and starts again from the
 cursors it left in the store.
 */
module Sessions {
  import opened Common
  import opened Pipeline

  /** StartEpoch and BackfillEpochWorkers as configured: fixed across sessions. */
  datatype Params = Params(start: nat, configured: int) {
    function Workers(): nat { EffectiveWorkers(configured) }
  }

  /** Storing: the epoch row is there, its blob rows not yet.  Saving: the cursor is next. */
  datatype Live =
    | Waiting
    | Processing(epoch: nat, upTo: nat)
    | Storing(epoch: nat, upTo: nat)
    | Saving(epoch: nat, upTo: nat)

  datatype Backfill = Off | Running(c: Config, s: State) | Sleeping(next: nat) | Over

  /** `finalized` is the checkpoint read at startup, `cursor` the backfill cursor found then. */
  datatype Session = Session(finalized: nat, cursor: nat, from: nat, target: Option<nat>, back: Backfill, live: Live) {
    predicate Anchored() { from < finalized }
  }

  /** `fin` is the highest finalized epoch reported so far; `gap` is history: the epoch that
      the last anchored session left to neither goroutine. */
  datatype Sys = Sys(db: Db, fin: nat, up: Option<Session>, gap: Option<nat>)

  /** What happens inside a running session. */
  datatype Move =
    | Back(a: Action)
    | BackReturn
    | BackRetry
    | Tick(finalized: nat, cursor: nat)
    | LiveRow
    | LiveBlobs
    | LiveCursor
    | LiveCursorLost
    | LiveFail
  {
    predicate OfLive() { Tick? || LiveRow? || LiveBlobs? || LiveCursor? || LiveCursorLost? || LiveFail? }
  }

  datatype Event = Boot(finalized: nat, cursor: nat) | Inside(m: Move) | Crash

  /** GetLastProcessedEpoch: the stored live cursor, else the highest epoch row, else 0. */
  predicate LiveReads(d: Db, v: nat) {
    match d.live
    case Some(w) => v == w
    case None => if d.rows == {} then v == 0 else v in d.rows && forall r :: r in d.rows ==> r <= v
  }

  function BackfillStart(p: Params, d: Db): nat {
    if d.backfill > 0 then d.backfill + 1 else p.start
  }

  function LiveStart(p: Params, cursor: nat): nat {
    if cursor > 0 then cursor + 1 else p.start
  }

  function Fresh(): Sys { Sys(Db({}, {}, 0, None), 0, None, None) }

  /** Finality never goes backwards, and inside a session only the two goroutines write. */
  predicate CanMove(p: Params, d: Db, fin: nat, s: Session, m: Move) {
    match m
    case Back(a) => s.back.Running? && !a.AddRow? && Enabled(s.back.c, d, s.back.s, a)
    case BackReturn => s.back.Running? && s.back.s.cons.Returned?
    case BackRetry => s.back.Sleeping? && s.target.Some?
    case Tick(f, v) => s.live.Waiting? && fin <= f && LiveReads(d, v)
    case LiveRow => s.live.Processing?
    case LiveBlobs => s.live.Storing?
    case LiveCursor => s.live.Saving?
    case LiveCursorLost => s.live.Saving?
    case LiveFail => !s.live.Waiting?
  }

  predicate Can(p: Params, y: Sys, ev: Event) {
    match ev
    case Boot(f, v) => y.up.None? && y.fin <= f && LiveReads(y.db, v)
    case Inside(m) => y.up.Some? && CanMove(p, y.db, y.fin, y.up.value, m)
    case Crash => y.up.Some?
  }

  function Booted(p: Params, y: Sys, f: nat, v: nat): Sys {
    var from := BackfillStart(p, y.db);
    var anchored := from < f;
    var cursor := if anchored then f - 1 else v;
    var launch := from < cursor;
    Sys(if anchored then y.db.(live := Some(cursor)) else y.db,
        f,
        Some(Session(f, y.db.backfill, from,
                     if launch then Some(cursor - 1) else None,
                     if launch then Running(Config(from, cursor - 1, p.Workers()), Init(Config(from, cursor - 1, p.Workers())))
                     else Off,
                     Live.Waiting)),
        if anchored && 1 < f then Some(f - 1) else y.gap)
  }

  function MovedDb(p: Params, d: Db, fin: nat, s: Session, m: Move): Db
    requires CanMove(p, d, fin, s, m)
  {
    match m
    case Back(a) => DbAfter(s.back.c, d, s.back.s, a)
    case LiveRow => d.(rows := d.rows + {s.live.epoch})
    case LiveBlobs => d.(blobs := d.blobs + {s.live.epoch})
    case LiveCursor => d.(live := Some(s.live.epoch))
    case LiveCursorLost => d.(live := Some(s.live.epoch))
    case _ => d
  }

  function Moved(p: Params, d: Db, fin: nat, s: Session, m: Move): Session
    requires CanMove(p, d, fin, s, m)
  {
    match m
    case Back(a) => s.(back := Running(s.back.c, After(s.back.c, d, s.back.s, a)))
    case BackReturn => s.(back := if s.back.s.cons.err then Sleeping(s.back.s.cons.resume) else Over)
    case BackRetry =>
      var c := Config(s.back.next, s.target.value, p.Workers());
      s.(back := if c.from <= c.target then Running(c, Init(c)) else Over)
    case Tick(f, v) =>
      var first := LiveStart(p, v);
      s.(live := if f < first then Live.Waiting else Processing(first, f))
    case LiveRow => s.(live := Storing(s.live.epoch, s.live.upTo))
    case LiveBlobs => s.(live := Saving(s.live.epoch, s.live.upTo))
    case LiveCursor =>
      s.(live := if s.live.epoch < s.live.upTo then Processing(s.live.epoch + 1, s.live.upTo) else Live.Waiting)
    case LiveCursorLost => s.(live := Live.Waiting)
    case LiveFail => s.(live := Live.Waiting)
  }

  function Next(p: Params, y: Sys, ev: Event): Sys
    requires Can(p, y, ev)
  {
    match ev
    case Boot(f, v) => Booted(p, y, f, v)
    case Crash => y.(up := None)
    case Inside(m) =>
      Sys(MovedDb(p, y.db, y.fin, y.up.value, m),
          if m.Tick? then m.finalized else y.fin,
          Some(Moved(p, y.db, y.fin, y.up.value, m)),
          y.gap)
  }

  // ---------------------------------------------------------------------------------
  // The invariant
  // ---------------------------------------------------------------------------------

  ghost predicate InvStore(p: Params, d: Db, fin: nat, gap: Option<nat>) {
    && (d.backfill > 0 ==> p.start <= d.backfill && AllRows(d.rows, p.start, d.backfill + 1))
    && (forall r :: r in d.rows ==> p.start <= r <= fin)
    && (d.live.Some? ==> p.start <= d.live.value <= fin)
    && (gap.Some? ==> p.start <= gap.value < fin && d.backfill < gap.value)
    && (gap.None? ==> d.backfill == 0)
  }

  /** The cursor trails the resume point by one, or still has the value found at startup, or
      - after a write that reported an error - equals the resume point. */
  ghost predicate Trails(s: Session, d: Db, resume: nat) {
    || (d.backfill == s.cursor && resume == s.from)
    || (d.backfill + 1 == resume && s.from < resume)
    || (d.backfill == resume && s.from <= resume && resume in d.rows)
  }

  ghost predicate InvBack(p: Params, s: Session, d: Db) {
    && s.from == (if s.cursor > 0 then s.cursor + 1 else p.start)
    && AllRows(d.rows, p.start, s.from)
    && (s.target.Some? ==> s.Anchored() && s.from <= s.target.value == s.finalized - 2 && 2 <= s.finalized)
    && (s.target.None? ==> s.back.Off? && (s.Anchored() ==> s.finalized - 1 <= s.from))
    && match s.back
       case Running(c, x) =>
         && s.target == Some(c.target) && s.from <= c.from && c.workers == p.Workers()
         && Inv(c, d, x) && AllRows(d.rows, s.from, c.from) && Trails(s, d, x.resume)
       case Sleeping(n) =>
         s.from <= n && (s.target.Some? ==> n <= s.target.value + 1) && AllRows(d.rows, s.from, n) && Trails(s, d, n)
       case Over => s.target.Some? && AllRows(d.rows, s.from, s.target.value + 1)
       case Off => true
  }

  ghost predicate InvLive(p: Params, s: Session, d: Db, fin: nat) {
    && s.finalized <= fin
    && (s.Anchored() ==>
          && p.start <= s.from
          && d.live.Some? && s.finalized - 1 <= d.live.value
          && (1 < s.finalized ==> AllRows(d.rows, s.finalized, d.live.value + 1)))
    && (!s.live.Waiting? ==>
          && s.live.epoch <= s.live.upTo <= fin
          && p.start <= s.live.epoch
          && (s.Anchored() && 1 < s.finalized ==> s.live.epoch == d.live.value + 1))
    && (s.live.Storing? || s.live.Saving? ==> s.live.epoch in d.rows)
  }

  ghost predicate InvRest(p: Params, y: Sys) {
    && InvStore(p, y.db, y.fin, y.gap)
    && (y.up.Some? ==> InvLive(p, y.up.value, y.db, y.fin))
    && (y.up.Some? && y.up.value.Anchored() && 1 < y.up.value.finalized ==> y.gap == Some(y.up.value.finalized - 1))
  }

  ghost predicate SysInv(p: Params, y: Sys) {
    InvRest(p, y) && (y.up.Some? ==> InvBack(p, y.up.value, y.db))
  }

  lemma BootKeeps(p: Params, y: Sys, f: nat, v: nat)
    requires SysInv(p, y) && Can(p, y, Boot(f, v))
    ensures SysInv(p, Booted(p, y, f, v))
  {
    var s := Booted(p, y, f, v).up.value;
    assert v <= y.fin;
    if s.back.Running? {
      InitInv(s.back.c, y.db);
      RowsGrow(s.back.c, y.db, Booted(p, y, f, v).db, s.back.s);
    }
  }

  /** A pipeline step seen from outside: rows only grow, by epochs of the range; the cursor
      moves only to the resume point, whose row is there, and the resume point only past it. */
  lemma PipelineEffect(c: Config, d: Db, x: State, a: Action)
    requires Inv(c, d, x) && Enabled(c, d, x, a) && !a.AddRow?
    ensures var d', x' := DbAfter(c, d, x, a), After(c, d, x, a);
            && d.rows <= d'.rows && d'.live == d.live
            && (forall r :: r in d'.rows ==> r in d.rows || c.from <= r <= c.target)
            && (|| (d'.backfill == d.backfill && x'.resume == x.resume)
                || (d'.backfill == x.resume <= c.target && x.resume in d.rows && x.resume <= x'.resume <= x.resume + 1))
  {
    if a.Consume? {
      ConsumerEffect(c, d, x, a.k);
    } else {
      OthersWriteNothing(c, d, x, a);
    }
  }

  lemma OthersWriteNothing(c: Config, d: Db, x: State, a: Action)
    requires Enabled(c, d, x, a) && !a.AddRow? && !a.Consume?
    ensures DbAfter(c, d, x, a) == d && After(c, d, x, a).resume == x.resume
  {}

  lemma ConsumerEffect(c: Config, d: Db, x: State, m: ConsumerMove)
    requires InvConsumer(c, d, x) && InvControl(c, x) && CanConsume(x, m)
    ensures var d', x' := Written(d, x, m), Consumed(x, m);
            && d.rows <= d'.rows && d'.live == d.live
            && (forall r :: r in d'.rows ==> r in d.rows || c.from <= r <= c.target)
            && (|| (d'.backfill == d.backfill && x'.resume == x.resume)
                || (d'.backfill == x.resume <= c.target && x.resume in d.rows && x.resume <= x'.resume <= x.resume + 1))
  {}

  lemma BackStep(p: Params, s: Session, d: Db, a: Action)
    requires InvBack(p, s, d) && s.back.Running? && Enabled(s.back.c, d, s.back.s, a) && !a.AddRow?
    ensures InvBack(p, s.(back := Running(s.back.c, After(s.back.c, d, s.back.s, a))), DbAfter(s.back.c, d, s.back.s, a))
  {
    var c, x := s.back.c, s.back.s;
    StepKeeps(c, d, x, a);
    PipelineEffect(c, d, x, a);
    ResumeKept(p, s, d, x.resume, DbAfter(c, d, x, a), After(c, d, x, a).resume);
  }

  lemma ResumeKept(p: Params, s: Session, d: Db, n: nat, d': Db, n': nat)
    requires Trails(s, d, n) && d.rows <= d'.rows && s.from <= n
    requires || (d'.backfill == d.backfill && n' == n)
             || (d'.backfill == n && n in d.rows && n <= n' <= n + 1)
    ensures Trails(s, d', n')
  {}

  lemma BackKeeps(p: Params, y: Sys, a: Action)
    requires SysInv(p, y) && Can(p, y, Inside(Back(a)))
    ensures SysInv(p, Next(p, y, Inside(Back(a))))
  {
    BackKeepsBack(p, y, a);
    BackKeepsRest(p, y, a);
  }

  lemma BackKeepsBack(p: Params, y: Sys, a: Action)
    requires y.up.Some? && InvBack(p, y.up.value, y.db) && Can(p, y, Inside(Back(a)))
    ensures Next(p, y, Inside(Back(a))).up.Some?
    ensures InvBack(p, Next(p, y, Inside(Back(a))).up.value, Next(p, y, Inside(Back(a))).db)
  {
    BackStep(p, y.up.value, y.db, a);
  }

  lemma BackKeepsRest(p: Params, y: Sys, a: Action)
    requires SysInv(p, y) && Can(p, y, Inside(Back(a)))
    ensures InvRest(p, Next(p, y, Inside(Back(a))))
  {
    var s := y.up.value;
    var d', s' := MovedDb(p, y.db, y.fin, s, Back(a)), Moved(p, y.db, y.fin, s, Back(a));
    BackEffect(p, y, s, a);
    StoreKept(p, s, y, d');
    LiveStays(p, s, y.db, y.fin, s'.back, d');
    RestKept(p, y, s, s'.back, d');
  }

  lemma RestKept(p: Params, y: Sys, s: Session, k: Backfill, d': Db)
    requires y.up == Some(s) && InvRest(p, y)
    requires InvStore(p, d', y.fin, y.gap) && InvLive(p, s.(back := k), d', y.fin)
    ensures InvRest(p, Sys(d', y.fin, Some(s.(back := k)), y.gap))
  {}

  lemma LiveStays(p: Params, s: Session, d: Db, fin: nat, k: Backfill, d': Db)
    requires InvLive(p, s, d, fin) && d.rows <= d'.rows && d'.live == d.live
    ensures InvLive(p, s.(back := k), d', fin)
  {}

  lemma BackEffect(p: Params, y: Sys, s: Session, a: Action)
    requires InvBack(p, s, y.db) && CanMove(p, y.db, y.fin, s, Back(a))
    ensures var d' := MovedDb(p, y.db, y.fin, s, Back(a));
            && y.db.rows <= d'.rows && d'.live == y.db.live
            && (forall r :: r in d'.rows ==> r in y.db.rows || s.back.c.from <= r <= s.back.c.target)
            && (d'.backfill == y.db.backfill || (d'.backfill == s.back.s.resume <= s.back.c.target && d'.backfill in y.db.rows))
  {
    PipelineEffect(s.back.c, y.db, s.back.s, a);
  }

  lemma StoreKept(p: Params, s: Session, y: Sys, d': Db)
    requires SysInv(p, y) && y.up == Some(s) && s.back.Running?
    requires y.db.rows <= d'.rows && d'.live == y.db.live
    requires forall r :: r in d'.rows ==> r in y.db.rows || s.back.c.from <= r <= s.back.c.target
    requires d'.backfill == y.db.backfill
          || (d'.backfill == s.back.s.resume <= s.back.c.target && d'.backfill in y.db.rows)
    ensures InvStore(p, d', y.fin, y.gap)
  {
    var c, x := s.back.c, s.back.s;
    assert AllRows(y.db.rows, p.start, x.resume);
  }

  /** Nothing on the backfill side depends on the live loop, and more rows do it no harm. */
  lemma BackStays(p: Params, s: Session, d: Db, k: Live, d': Db)
    requires InvBack(p, s, d) && d.rows <= d'.rows && d'.backfill == d.backfill
    ensures InvBack(p, s.(live := k), d')
  {
    if s.back.Running? {
      RowsGrow(s.back.c, d, d', s.back.s);
    }
  }

  lemma LiveSide(p: Params, y: Sys, m: Move)
    requires y.up.Some? && CanMove(p, y.db, y.fin, y.up.value, m)
    requires InvStore(p, y.db, y.fin, y.gap) && InvLive(p, y.up.value, y.db, y.fin)
    requires m.OfLive()
    ensures var y' := Next(p, y, Inside(m)); InvStore(p, y'.db, y'.fin, y'.gap) && InvLive(p, y'.up.value, y'.db, y'.fin)
  {}

  lemma LiveKeeps(p: Params, y: Sys, m: Move)
    requires SysInv(p, y) && Can(p, y, Inside(m))
    requires m.OfLive()
    ensures SysInv(p, Next(p, y, Inside(m)))
  {
    var s := y.up.value;
    LiveSide(p, y, m);
    BackStays(p, s, y.db, Moved(p, y.db, y.fin, s, m).live, MovedDb(p, y.db, y.fin, s, m));
  }

  lemma RetryBack(p: Params, d: Db, fin: nat, s: Session, m: Move)
    requires InvBack(p, s, d) && CanMove(p, d, fin, s, m) && (m.BackReturn? || m.BackRetry?)
    ensures InvBack(p, Moved(p, d, fin, s, m), d)
  {
    var s' := Moved(p, d, fin, s, m);
    if s'.back.Running? {
      InitInv(s'.back.c, d);
    }
  }

  lemma RetryKeeps(p: Params, y: Sys, m: Move)
    requires SysInv(p, y) && Can(p, y, Inside(m))
    requires m.BackReturn? || m.BackRetry?
    ensures SysInv(p, Next(p, y, Inside(m)))
  {
    var s := y.up.value;
    RetryBack(p, y.db, y.fin, s, m);
    LiveStays(p, s, y.db, y.fin, Moved(p, y.db, y.fin, s, m).back, y.db);
  }

  lemma NextKeeps(p: Params, y: Sys, ev: Event)
    requires SysInv(p, y) && Can(p, y, ev)
    ensures SysInv(p, Next(p, y, ev))
  {
    match ev
    case Boot(f, v) => BootKeeps(p, y, f, v);
    case Crash =>
    case Inside(m) =>
      match m {
        case Back(a) => BackKeeps(p, y, a);
        case BackReturn => RetryKeeps(p, y, m);
        case BackRetry => RetryKeeps(p, y, m);
        case _ => LiveKeeps(p, y, m);
      }
  }

  // ---------------------------------------------------------------------------------
  // Over every history
  // ---------------------------------------------------------------------------------

  function Replay(p: Params, y: Sys, h: seq<Event>): Option<Sys>
    decreases |h|
  {
    if h == [] then Some(y)
    else if !Can(p, y, h[0]) then None
    else Replay(p, Next(p, y, h[0]), h[1..])
  }

  /** A state some history of sessions, retries and crashes leads to. */
  ghost predicate Occurs(p: Params, y: Sys) {
    exists h :: Replay(p, Fresh(), h) == Some(y)
  }

  lemma {:induction false} ReplayKeeps(p: Params, y: Sys, h: seq<Event>)
    requires SysInv(p, y) && Replay(p, y, h).Some?
    ensures SysInv(p, Replay(p, y, h).value)
    decreases |h|
  {
    if h != [] {
      NextKeeps(p, y, h[0]);
      ReplayKeeps(p, Next(p, y, h[0]), h[1..]);
    }
  }

  lemma OccursInv(p: Params, y: Sys)
    requires Occurs(p, y)
    ensures SysInv(p, y)
  {
    var h :| Replay(p, Fresh(), h) == Some(y);
    ReplayKeeps(p, Fresh(), h);
  }

  /** The backfill cursor never overstates: whatever crashed, failed or was retried, a cursor
      c > 0 means every epoch from StartEpoch to c has a row. */
  lemma CursorMeansRows(p: Params, y: Sys)
    requires Occurs(p, y) && y.db.backfill > 0
    ensures p.start <= y.db.backfill
    ensures forall e :: p.start <= e <= y.db.backfill ==> e in y.db.rows
  {
    OccursInv(p, y);
  }

  /** Within a session the cursor stays, rises by one, or - from unset - becomes StartEpoch. */
  lemma CursorRisesByOne(p: Params, y: Sys, m: Move)
    requires Occurs(p, y) && Can(p, y, Inside(m))
    ensures var b, b' := y.db.backfill, Next(p, y, Inside(m)).db.backfill;
            b' == b || b' == b + 1 || (b == 0 && b' == p.start)
  {
    OccursInv(p, y);
    if m.Back? {
      PipelineEffect(y.up.value.back.c, y.db, y.up.value.back.s, m.a);
    }
  }

  /** Some goroutine is working on epoch e. */
  ghost predicate BackWorksOn(s: Session, e: nat) {
    s.back.Running? &&
    var x := s.back.s;
    || (exists i :: 0 <= i < |x.workers| && x.workers[i].Holding() && x.workers[i].Epoch() == e)
    || ((x.cons.Persist? || x.cons.SaveBlobs? || x.cons.SetCursor?) && x.cons.job.epoch == e)
  }

  ghost predicate LiveWorksOn(s: Session, e: nat) {
    !s.live.Waiting? && s.live.epoch == e
  }

  lemma BackRange(p: Params, y: Sys, s: Session, e: nat)
    requires SysInv(p, y) && y.up == Some(s) && BackWorksOn(s, e)
    ensures s.Anchored() && 2 <= s.finalized && s.from <= e <= s.finalized - 2
  {
    var c, x := s.back.c, s.back.s;
    if !((x.cons.Persist? || x.cons.SaveBlobs? || x.cons.SetCursor?) && x.cons.job.epoch == e) {
      var i :| 0 <= i < |x.workers| && x.workers[i].Holding() && x.workers[i].Epoch() == e;
      assert e in x.place;
    }
  }

  /** No goroutine ever works on an epoch above the finalized one, and the two never work on
      the same range: everything backfill touches lies below everything live touches. */
  lemma FinalizedAndDisjoint(p: Params, y: Sys, s: Session, b: nat, l: nat)
    requires Occurs(p, y) && y.up == Some(s)
    ensures BackWorksOn(s, b) ==> b <= y.fin
    ensures LiveWorksOn(s, l) ==> l <= y.fin
    ensures BackWorksOn(s, b) && LiveWorksOn(s, l) ==> b < l
  {
    OccursInv(p, y);
    if BackWorksOn(s, b) {
      BackRange(p, y, s, b);
    }
  }

  /** What a session anchored at F hands out: to backfill everything from its start to F - 2,
      to the live loop everything from F on - and F - 1 to neither. */
  lemma OneEpochIsLeftOut(p: Params, y: Sys, s: Session, e: nat)
    requires Occurs(p, y) && y.up == Some(s)
    requires s.Anchored() && 1 < s.finalized
    ensures s.target == (if s.from < s.finalized - 1 then Some(s.finalized - 2) else None)
    ensures !BackWorksOn(s, s.finalized - 1) && !LiveWorksOn(s, s.finalized - 1)
    ensures BackWorksOn(s, e) ==> s.from <= e <= s.finalized - 2
    ensures LiveWorksOn(s, e) ==> s.finalized <= e
    ensures y.gap == Some(s.finalized - 1)
  {
    OccursInv(p, y);
    if BackWorksOn(s, s.finalized - 1) { BackRange(p, y, s, s.finalized - 1); }
    if BackWorksOn(s, e) { BackRange(p, y, s, e); }
  }

  /** A session anchored at f is running. */
  ghost predicate RunsAt(y: Sys, f: nat) {
    y.up.Some? && y.up.value.Anchored() && y.up.value.finalized == f && 1 < f
  }

  /** Nothing such a session does adds a row for F - 1: not one step ... */
  lemma LeftOutStep(p: Params, y: Sys, f: nat, m: Move)
    requires SysInv(p, y) && RunsAt(y, f) && Can(p, y, Inside(m))
    ensures f - 1 in Next(p, y, Inside(m)).db.rows <==> f - 1 in y.db.rows
    ensures RunsAt(Next(p, y, Inside(m)), f)
  {
    if m.Back? {
      PipelineEffect(y.up.value.back.c, y.db, y.up.value.back.s, m.a);
    }
  }

  /** Nothing starts or crashes. */
  ghost predicate OneSession(h: seq<Event>) { forall i :: 0 <= i < |h| ==> h[i].Inside? }

  /** ... and not any sequence of them. */
  lemma {:induction false} LeftOutRowStays(p: Params, y: Sys, f: nat, h: seq<Event>)
    requires SysInv(p, y) && RunsAt(y, f) && OneSession(h) && Replay(p, y, h).Some?
    ensures f - 1 in Replay(p, y, h).value.db.rows <==> f - 1 in y.db.rows
    decreases |h|
  {
    if h != [] {
      LeftOutStep(p, y, f, h[0].m);
      NextKeeps(p, y, h[0]);
      LeftOutRowStays(p, Next(p, y, h[0]), f, h[1..]);
    }
  }

  /** So the first session, anchored at F > 1, ends without a row for F - 1, however long it
      lasts and wherever it stops. */
  lemma FirstSessionMissesOne(p: Params, f: nat, h: seq<Event>)
    requires p.start < f && 1 < f && OneSession(h) && Replay(p, Fresh(), [Boot(f, 0)] + h).Some?
    ensures f - 1 !in Replay(p, Fresh(), [Boot(f, 0)] + h).value.db.rows
  {
    assert ([Boot(f, 0)] + h)[1..] == h;
    NextKeeps(p, Fresh(), Boot(f, 0));
    LeftOutRowStays(p, Next(p, Fresh(), Boot(f, 0)), f, h);
  }

  /** Once such a session's backfill is over, every epoch from StartEpoch up to the live
      cursor has a row, with the possible exception of F - 1. */
  lemma AllButOneCovered(p: Params, y: Sys, s: Session, e: nat)
    requires Occurs(p, y) && y.up == Some(s)
    requires s.Anchored() && 1 < s.finalized && (s.back.Over? || s.target.None?)
    requires y.db.live.Some? && p.start <= e <= y.db.live.value && e != s.finalized - 1
    ensures e in y.db.rows
  {
    OccursInv(p, y);
  }

  /** The epoch left out is not lost: the next session that starts with a higher finalized
      epoch has it in its backfill range. */
  lemma NextSessionTakesIt(p: Params, y: Sys, f: nat, v: nat)
    requires Occurs(p, y) && y.gap.Some? && Can(p, y, Boot(f, v)) && y.gap.value + 1 < f
    ensures var s := Next(p, y, Boot(f, v)).up.value;
            s.back.Running? && s.back.c.from <= y.gap.value <= s.back.c.target
  {
    OccursInv(p, y);
  }
}
