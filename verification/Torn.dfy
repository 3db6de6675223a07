/**
 Epoch rows without blob rows.  persistEpoch writes the epoch row first and the blob rows in
 a second transaction, and backfill skips every epoch that has a row.  This module says which
 steps leave such an epoch behind, that it can happen to every epoch, and exactly when
 anything later brings the missing rows.
 */
module Torn {
  import opened Common
  import opened Pipeline
  import opened Sessions
  import opened StuckSchedules

  /** A goroutine has written the epoch row of e and is about to write its blob rows. */
  ghost predicate BackBetween(s: Session, e: nat) {
    s.back.Running? && s.back.s.cons.SaveBlobs? && s.back.s.cons.job.epoch == e
  }

  ghost predicate LiveBetween(s: Session, e: nat) { s.live.Storing? && s.live.epoch == e }

  /** Epoch e has a row, its blobs have none, and nobody is about to write them. */
  ghost predicate IsTorn(y: Sys, e: nat) {
    && e in y.db.rows && e !in y.db.blobs
    && (y.up.Some? ==> !BackBetween(y.up.value, e) && !LiveBetween(y.up.value, e))
  }

  // ---------------------------------------------------------------------------------
  // How it happens
  // ---------------------------------------------------------------------------------

  /** The process dies, or the second write fails, between the two writes. */
  ghost predicate Breaks(s: Session, ev: Event, e: nat) {
    || (ev.Crash? && (BackBetween(s, e) || LiveBetween(s, e)))
    || (ev == Inside(Back(Consume(KFail))) && BackBetween(s, e))
    || (ev == Inside(LiveFail) && LiveBetween(s, e))
  }

  lemma OneBetween(p: Params, y: Sys, s: Session, e: nat)
    requires SysInv(p, y) && y.up == Some(s)
    ensures !(BackBetween(s, e) && LiveBetween(s, e))
  {
    if BackBetween(s, e) { BackRange(p, y, s, e); }
  }

  lemma BetweenHasRow(p: Params, y: Sys, s: Session, e: nat)
    requires SysInv(p, y) && y.up == Some(s) && (BackBetween(s, e) || LiveBetween(s, e))
    ensures e in y.db.rows
  {}

  /** What the pipeline does to one epoch's rows: the row comes with the stage between the
      writes, the blobs end it. */
  lemma PipelineRows(c: Config, d: Db, x: State, a: Action, e: nat)
    requires InvConsumer(c, d, x) && Enabled(c, d, x, a) && !a.AddRow?
    ensures var d', x' := DbAfter(c, d, x, a), After(c, d, x, a);
            var was, now := x.cons.SaveBlobs? && x.cons.job.epoch == e, x'.cons.SaveBlobs? && x'.cons.job.epoch == e;
            && (e in d.blobs ==> e in d'.blobs) && (e in d.rows ==> e in d'.rows)
            && (e in d'.rows && e !in d.rows ==> now)
            && (e in d'.blobs && e !in d.blobs ==> was)
            && (was && !now ==> e in d'.blobs || a == Consume(KFail))
            && (was && a == Consume(KFail) ==> !now && d' == d)
  {
    if !a.Consume? { OthersKeepConsumer(c, d, x, a); }
  }

  lemma OthersKeepConsumer(c: Config, d: Db, x: State, a: Action)
    requires Enabled(c, d, x, a) && !a.AddRow? && !a.Consume?
    ensures DbAfter(c, d, x, a) == d && After(c, d, x, a).cons == x.cons
  {}

  lemma TearBack(p: Params, y: Sys, s: Session, a: Action, e: nat)
    requires SysInv(p, y) && y.up == Some(s) && CanMove(p, y.db, y.fin, s, Back(a)) && !IsTorn(y, e)
    ensures IsTorn(Next(p, y, Inside(Back(a))), e) <==> e !in y.db.blobs && a == Consume(KFail) && BackBetween(s, e)
  {
    OneBetween(p, y, s, e);
    if BackBetween(s, e) || LiveBetween(s, e) { BetweenHasRow(p, y, s, e); }
    PipelineRows(s.back.c, y.db, s.back.s, a, e);
  }

  lemma TearLive(p: Params, y: Sys, s: Session, m: Move, e: nat)
    requires SysInv(p, y) && y.up == Some(s) && CanMove(p, y.db, y.fin, s, m) && !IsTorn(y, e) && !m.Back?
    ensures IsTorn(Next(p, y, Inside(m)), e) <==> e !in y.db.blobs && m.LiveFail? && LiveBetween(s, e)
  {
    OneBetween(p, y, s, e);
    if BackBetween(s, e) || LiveBetween(s, e) { BetweenHasRow(p, y, s, e); }
  }

  /** Epoch e becomes torn exactly when it has no blob rows yet and a crash, or the failure of
      the second write, hits a goroutine that is between its two writes. */
  lemma TearsIff(p: Params, y: Sys, ev: Event, e: nat)
    requires SysInv(p, y) && Can(p, y, ev) && !IsTorn(y, e)
    ensures IsTorn(Next(p, y, ev), e) <==> y.up.Some? && e !in y.db.blobs && Breaks(y.up.value, ev, e)
  {
    match ev
    case Boot(_, _) =>
    case Crash =>
      var s := y.up.value;
      if BackBetween(s, e) || LiveBetween(s, e) { BetweenHasRow(p, y, s, e); }
    case Inside(m) =>
      if m.Back? { TearBack(p, y, y.up.value, m.a, e); } else { TearLive(p, y, y.up.value, m, e); }
  }

  // ---------------------------------------------------------------------------------
  // Backfill does not repair it
  // ---------------------------------------------------------------------------------

  /** No worker is building e, and e was not built: it was, or will be, skipped. */
  ghost predicate NeverBuilt(x: State, e: nat) {
    && (forall i :: 0 <= i < |x.workers| ==> x.workers[i] != Building(e))
    && (e in x.built ==> !x.built[e].Built?)
  }

  lemma WorkerSkips(c: Config, d: Db, x: State, i: nat, m: WorkerMove, e: nat)
    requires CanWork(c, d.rows, x, i, m) && e in d.rows && NeverBuilt(x, e)
    ensures NeverBuilt(Worked(c, d.rows, x, i, m), e)
  {}

  lemma NeverBuiltStays(c: Config, d: Db, x: State, a: Action, e: nat)
    requires Enabled(c, d, x, a) && e in d.rows && NeverBuilt(x, e)
    ensures NeverBuilt(After(c, d, x, a), e)
  {
    match a
    case Dispatch(m) => DispatcherFrame(x, m);
    case Work(i, m) => WorkerSkips(c, d, x, i, m, e);
    case Collect(m) => CollectorFrame(c, x, m);
    case Consume(m) => ConsumerFrame(d, x, m);
    case _ =>
  }

  lemma NotStored(c: Config, d: Db, x: State, a: Action, e: nat)
    requires Inv(c, d, x) && Enabled(c, d, x, a) && NeverBuilt(x, e) && e !in d.blobs
    ensures e !in DbAfter(c, d, x, a).blobs
  {
    if a == Consume(KBlobs) {
      assert Own(x.built, c.from + (x.taken - 1), x.pending[x.taken - 1]);
    }
  }

  /** An attempt that finds a row for e leaves e's blob rows as they are, whatever happens. */
  lemma {:induction false} AttemptSkips(c: Config, x: Snap, run: seq<Action>, e: nat)
    requires Inv(c, x.d, x.s) && Exec(c, x, run).Some? && NeverBuilt(x.s, e) && e in x.d.rows && e !in x.d.blobs
    ensures e !in Exec(c, x, run).value.d.blobs
    decreases |run|
  {
    if run != [] {
      NeverBuiltStays(c, x.d, x.s, run[0], e);
      NotStored(c, x.d, x.s, run[0], e);
      StepKeeps(c, x.d, x.s, run[0]);
      AttemptSkips(c, Step(c, x, run[0]), run[1..], e);
    }
  }

  // ---------------------------------------------------------------------------------
  // When anything does
  // ---------------------------------------------------------------------------------

  /** Epochs that no live loop will come to again: those below the finalized epoch, whatever
      the next session, and StartEpoch itself once it has a row. */
  ghost predicate Passed(p: Params, fin: nat, e: nat) {
    (e < fin && 1 < fin) || (e == p.start && 1 <= e)
  }

  ghost predicate Lost(p: Params, y: Sys, e: nat) {
    && e in y.db.rows && e !in y.db.blobs && Passed(p, y.fin, e)
    && (y.up.Some? ==>
          var s := y.up.value;
          && (s.back.Running? ==> NeverBuilt(s.back.s, e))
          && (!s.live.Waiting? ==> e < s.live.epoch)
          && ((e == p.start && 1 <= e) || (s.Anchored() && e < s.finalized && 1 < s.finalized)))
  }

  lemma LostBoot(p: Params, y: Sys, f: nat, v: nat, e: nat)
    requires SysInv(p, y) && Can(p, y, Boot(f, v)) && Lost(p, y, e)
    ensures Lost(p, Booted(p, y, f, v), e)
  {}

  lemma LostLive(p: Params, y: Sys, m: Move, e: nat)
    requires SysInv(p, y) && Can(p, y, Inside(m)) && Lost(p, y, e) && m.OfLive()
    ensures Lost(p, Next(p, y, Inside(m)), e)
  {}

  lemma LostBack(p: Params, y: Sys, m: Move, e: nat)
    requires SysInv(p, y) && Can(p, y, Inside(m)) && Lost(p, y, e) && !m.OfLive()
    ensures Lost(p, Next(p, y, Inside(m)), e)
  {
    var s := y.up.value;
    if m.Back? {
      NeverBuiltStays(s.back.c, y.db, s.back.s, m.a, e);
      NotStored(s.back.c, y.db, s.back.s, m.a, e);
      PipelineEffect(s.back.c, y.db, s.back.s, m.a);
    }
  }

  lemma LostKeeps(p: Params, y: Sys, ev: Event, e: nat)
    requires SysInv(p, y) && Can(p, y, ev) && Lost(p, y, e)
    ensures Lost(p, Next(p, y, ev), e)
  {
    match ev
    case Boot(f, v) => LostBoot(p, y, f, v, e);
    case Crash =>
    case Inside(m) => if m.OfLive() { LostLive(p, y, m, e); } else { LostBack(p, y, m, e); }
  }

  lemma {:induction false} LostForever(p: Params, y: Sys, h: seq<Event>, e: nat)
    requires SysInv(p, y) && Lost(p, y, e) && Replay(p, y, h).Some?
    ensures e !in Replay(p, y, h).value.db.blobs
    decreases |h|
  {
    if h != [] {
      LostKeeps(p, y, h[0], e);
      NextKeeps(p, y, h[0]);
      LostForever(p, Next(p, y, h[0]), h[1..], e);
    }
  }

  /** What the first tick of a live loop needs to come to epoch e again. */
  ghost predicate Repairable(p: Params, fin: nat, e: nat) {
    fin == 0 || (p.start < fin && (e == fin || fin == 1))
  }

  lemma {:induction false} ReplayAppend(p: Params, y: Sys, h: seq<Event>, ev: Event)
    requires Replay(p, y, h).Some? && Can(p, Replay(p, y, h).value, ev)
    ensures Replay(p, y, h + [ev]) == Some(Next(p, Replay(p, y, h).value, ev))
    decreases |h|
  {
    if h == [] {
      assert h + [ev] == [ev] && [ev][1..] == [];
    } else {
      ReplayAppend(p, Next(p, y, h[0]), h[1..], ev);
      assert (h + [ev])[1..] == h[1..] + [ev];
    }
  }

  ghost predicate Later(p: Params, y: Sys, z: Sys) { exists h :: Replay(p, y, h) == Some(z) }

  lemma Then(p: Params, y: Sys, z: Sys, ev: Event) returns (w: Sys)
    requires Later(p, y, z) && Can(p, z, ev)
    ensures Later(p, y, w) && w == Next(p, z, ev)
  {
    w := Next(p, z, ev);
    var h :| Replay(p, y, h) == Some(z);
    ReplayAppend(p, y, h, ev);
    assert Replay(p, y, h + [ev]) == Some(w);
  }

  lemma Now(p: Params, y: Sys)
    ensures Later(p, y, y)
  {
    assert Replay(p, y, []) == Some(y);
  }

  /** The live loop stores the epoch it is at. */
  lemma LiveStores(p: Params, y: Sys, z: Sys) returns (w: Sys)
    requires Later(p, y, z) && z.up.Some? && z.up.value.live.Processing?
    ensures Later(p, y, w) && z.up.value.live.epoch in w.db.blobs
    ensures w.up == Some(z.up.value.(live := Saving(z.up.value.live.epoch, z.up.value.live.upTo)))
  {
    w := Then(p, y, z, Inside(LiveRow));
    w := Then(p, y, w, Inside(LiveBlobs));
  }

  /** The live cursor can be read: there is a highest row if there is a row. */
  lemma CursorReads(p: Params, y: Sys, e: nat) returns (v: nat)
    requires SysInv(p, y) && e in y.db.rows && (e == y.fin || y.fin <= 1)
    ensures LiveReads(y.db, v) && v <= y.fin
  {
    match y.db.live
    case Some(w) => v := w;
    case None => v := if y.fin in y.db.rows then y.fin else 0;
  }

  /** A session at the same finalized epoch whose live loop comes to e. */
  lemma Repair(p: Params, y: Sys, e: nat) returns (z: Sys)
    requires SysInv(p, y) && y.up.None? && e in y.db.rows && Repairable(p, y.fin, e)
    ensures Later(p, y, z) && e in z.db.blobs
  {
    var v := CursorReads(p, y, e);
    Now(p, y);
    z := Then(p, y, y, Boot(y.fin, v));
    var s := z.up.value;
    assert s.Anchored() <==> y.fin != 0;
    z := Then(p, y, z, Inside(Tick(y.fin, if y.fin == 0 then v else y.fin - 1)));
    assert z.up.value.live == Processing(if y.fin <= 1 then p.start else y.fin, y.fin);
    z := LiveStores(p, y, z);
    if y.fin == 1 && e == 1 {
      z := Then(p, y, z, Inside(LiveCursor));
      z := LiveStores(p, y, z);
    }
  }

  /** With no process running, the missing blob rows of a torn epoch can still come if and only
      if the live loop of a session that starts at the same finalized epoch begins there: that is
      the epoch itself, with StartEpoch below it, or it is epoch 1 or 0.  In all other cases no
      history of sessions, retries and crashes brings them. */
  lemma RepairedIff(p: Params, y: Sys, e: nat)
    requires Occurs(p, y) && y.up.None? && IsTorn(y, e)
    ensures (exists z :: Later(p, y, z) && e in z.db.blobs) <==> Repairable(p, y.fin, e)
  {
    OccursInv(p, y);
    if Repairable(p, y.fin, e) {
      var z := Repair(p, y, e);
    }
    if z :| Later(p, y, z) && e in z.db.blobs {
      var h :| Replay(p, y, h) == Some(z);
      if !Repairable(p, y.fin, e) {
        LostForever(p, y, h, e);
      }
    }
  }

  // ---------------------------------------------------------------------------------
  // It can happen to every epoch
  // ---------------------------------------------------------------------------------

  /** A schedule of the pipeline alone is a piece of the session's history. */
  lemma {:induction false} Lift(p: Params, o: Sys, y: Sys, run: seq<Action>) returns (z: Sys)
    requires Later(p, o, y) && y.up.Some? && y.up.value.back.Running? && Alone(run)
    requires Exec(y.up.value.back.c, Snap(y.db, y.up.value.back.s), run).Some?
    ensures var s := y.up.value; var x := Exec(s.back.c, Snap(y.db, s.back.s), run).value;
            Later(p, o, z) && z == y.(db := x.d, up := Some(s.(back := Running(s.back.c, x.s))))
    decreases |run|
  {
    z := y;
    if run != [] {
      assert run[0] in run && forall a :: a in run[1..] ==> a in run;
      z := Then(p, o, y, Inside(Back(run[0])));
      z := Lift(p, o, z, run[1..]);
    }
  }

  /** The consumer has written the row of e and not yet its blobs. */
  lemma ReachBetween(c: Config, d: Db, e: nat) returns (x: Snap)
    requires c.Valid() && c.from <= e <= c.target && e !in d.rows && e !in d.blobs
    ensures Gets(c, d, x) && x.s.cons.SaveBlobs? && x.s.cons.job.epoch == e && e !in x.d.blobs && e in x.d.rows
  {
    var o, j := Start(c, d), Job(0, Failed);
    x := PassUntil(c, d, e);
    x, j := PostOne(c, o, x, 0);
    x := CollectOne(c, o, x);
    x := Advance(c, o, x, Consume(KTake));
    x := Advance(c, o, x, Consume(KRow));
  }

  /** For every configuration and every epoch from StartEpoch on there is a history - one session,
      one crash - that leaves it torn for good. */
  lemma TornIsReachable(p: Params, e: nat) returns (y: Sys)
    requires p.start <= e
    ensures Occurs(p, y) && y.up.None? && IsTorn(y, e) && !Repairable(p, y.fin, e)
  {
    var o := Fresh();
    Now(p, o);
    y := Then(p, o, o, Boot(e + 2, 0));
    var c := y.up.value.back.c;
    var x := ReachBetween(c, y.db, e);
    var run :| Exec(c, Start(c, y.db), run) == Some(x) && Alone(run);
    y := Lift(p, o, y, run);
    y := Then(p, o, y, Crash);
  }
}
