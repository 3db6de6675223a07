/**
 What one tick of the live loop (processLiveTick) gets done, whatever backfill does meanwhile.
 */
module LiveTicks {
  import opened Common
  import opened Pipeline
  import opened Sessions

  /** Row and blob rows of every epoch from lo to hi - 1 are there. */
  ghost predicate Stored(d: Db, lo: nat, hi: nat) {
    forall e :: lo <= e < hi ==> e in d.rows && e in d.blobs
  }

  /** The tick goes through: nothing starts or crashes, no write or build of the live loop fails
      and it does not tick again.  Backfill may do what it likes. */
  ghost predicate Smooth(h: seq<Event>) {
    forall i :: 0 <= i < |h| ==>
      h[i].Inside? && !h[i].m.Tick? && !h[i].m.LiveFail? && !h[i].m.LiveCursorLost?
  }

  /** How far a tick from `first` to f has come; when the loop waits again, it is done. */
  ghost predicate OnTheWay(d: Db, live: Live, first: nat, f: nat) {
    match live
    case Waiting => d.live == Some(f) && Stored(d, first, f + 1)
    case Processing(e, u) => u == f && first <= e <= f && Stored(d, first, e)
    case Storing(e, u) => u == f && first <= e <= f && Stored(d, first, e) && e in d.rows
    case Saving(e, u) => u == f && first <= e <= f && Stored(d, first, e + 1)
  }

  lemma PipelineAdds(c: Config, d: Db, x: State, a: Action)
    requires Enabled(c, d, x, a)
    ensures var d' := DbAfter(c, d, x, a); d.rows <= d'.rows && d.blobs <= d'.blobs && d'.live == d.live
  {}

  lemma SmoothStep(p: Params, y: Sys, m: Move, first: nat, f: nat)
    requires y.up.Some? && Can(p, y, Inside(m)) && !m.Tick? && !m.LiveFail? && !m.LiveCursorLost?
    requires OnTheWay(y.db, y.up.value.live, first, f)
    ensures var z := Next(p, y, Inside(m)); z.up.Some? && OnTheWay(z.db, z.up.value.live, first, f)
  {
    if m.Back? { PipelineAdds(y.up.value.back.c, y.db, y.up.value.back.s, m.a); }
  }

  lemma {:induction false} SmoothRun(p: Params, y: Sys, h: seq<Event>, first: nat, f: nat)
    requires y.up.Some? && OnTheWay(y.db, y.up.value.live, first, f) && Smooth(h) && Replay(p, y, h).Some?
    ensures var z := Replay(p, y, h).value; z.up.Some? && OnTheWay(z.db, z.up.value.live, first, f)
    decreases |h|
  {
    if h != [] {
      SmoothStep(p, y, h[0].m, first, f);
      SmoothRun(p, Next(p, y, h[0]), h[1..], first, f);
    }
  }

  /** A tick that reads the finalized epoch f and the cursor v, and goes through, has stored every
      epoch from the one after the cursor (from StartEpoch if the cursor is 0) up to f, rows and
      blob rows, and left the live cursor at f. */
  lemma TickCompletes(p: Params, y: Sys, f: nat, v: nat, h: seq<Event>)
    requires Can(p, y, Inside(Tick(f, v))) && (if v > 0 then v + 1 else p.start) <= f
    requires Smooth(h) && Replay(p, Next(p, y, Inside(Tick(f, v))), h).Some?
    ensures var z := Replay(p, Next(p, y, Inside(Tick(f, v))), h).value;
            && z.up.Some?
            && (z.up.value.live.Waiting? ==>
                  && z.db.live == Some(f)
                  && forall e :: (if v > 0 then v + 1 else p.start) <= e <= f ==> e in z.db.rows && e in z.db.blobs)
  {
    SmoothRun(p, Next(p, y, Inside(Tick(f, v))), h, if v > 0 then v + 1 else p.start, f);
  }

  /** A tick with nothing new changes nothing. */
  lemma EmptyTick(p: Params, y: Sys, f: nat, v: nat)
    requires Can(p, y, Inside(Tick(f, v))) && f < (if v > 0 then v + 1 else p.start)
    ensures Next(p, y, Inside(Tick(f, v))) == y.(fin := f)
  {}

  lemma ReplayCons(p: Params, y: Sys, ev: Event, h: seq<Event>)
    requires Can(p, y, ev)
    ensures Replay(p, y, [ev] + h) == Replay(p, Next(p, y, ev), h)
  {
    assert ([ev] + h)[1..] == h;
  }

  /** From any epoch of the tick the loop can go on to its end. */
  lemma {:induction false} GoesThrough(p: Params, y: Sys) returns (h: seq<Event>)
    requires y.up.Some? && y.up.value.live.Processing? && y.up.value.live.epoch <= y.up.value.live.upTo
    ensures Smooth(h) && Replay(p, y, h).Some?
    ensures var z := Replay(p, y, h).value; z.up.Some? && z.up.value.live.Waiting?
    decreases y.up.value.live.upTo - y.up.value.live.epoch
  {
    var a := Next(p, y, Inside(LiveRow));
    var b := Next(p, a, Inside(LiveBlobs));
    var z := Next(p, b, Inside(LiveCursor));
    h := [];
    if z.up.value.live.Processing? { h := GoesThrough(p, z); }
    ReplayCons(p, b, Inside(LiveCursor), h);
    h := [Inside(LiveCursor)] + h;
    ReplayCons(p, a, Inside(LiveBlobs), h);
    h := [Inside(LiveBlobs)] + h;
    ReplayCons(p, y, Inside(LiveRow), h);
    h := [Inside(LiveRow)] + h;
  }

  /** Such a history exists after every tick. */
  lemma TickCanComplete(p: Params, y: Sys, f: nat, v: nat) returns (h: seq<Event>)
    requires Can(p, y, Inside(Tick(f, v))) && (if v > 0 then v + 1 else p.start) <= f
    ensures Smooth(h) && Replay(p, Next(p, y, Inside(Tick(f, v))), h).Some?
    ensures var z := Replay(p, Next(p, y, Inside(Tick(f, v))), h).value; z.up.Some? && z.up.value.live.Waiting?
  {
    h := GoesThrough(p, Next(p, y, Inside(Tick(f, v))));
  }
}
