/** The copier's workers over their ledger, the catch-up in its own order, and the source, all at once: every such
    run is a run of the protocol, and a finished one leaves the source in the shadow
    (pkg/copier/copier.go, pkg/applier/catchup.go). */
module WholeRun {
  import opened Rows
  import opened Protocol
  import opened Invariant
  import opened Convergence
  import opened Copying
  import opened Ledger
  import opened Passes
  import opened Workers
  import opened DrainOrder
  import opened CycleOrder
  import opened CopySteps
  import opened WorkerSteps

  datatype Site = Site(point: Point, shop: Shop)

  /** The catch-up, the source and the readers leave the copy where it stands. */
  ghost predicate Pulses(h: History, x: Site, x': Site)
    requires |h.xids| == |h.log|
  {
    && x'.shop == x.shop && x'.point.state.phase == x.point.state.phase
    && Pulse(h, x.point, x'.point) && RightPulse(h, x.point, x'.point)
  }

  /** Some worker acts. */
  ghost predicate Acts(h: History, x: Site, x': Site, a: Act)
  {
    && (a.TakeChunk? ==> Orderly(a.server)) && x'.shop == Perform(x.shop, a)
    && x'.point == x.point.(state := x'.point.state) && Worked(h, x.shop, x.point.state, a, x'.point.state)
  }

  /** The run stops, wherever it is, and another goes on from a watermark saved. */
  ghost predicate StartsOver(x: Site, x': Site, saved: Watermark)
  {
    && (forall k: int64 :: saved.Reaches(k) ==> Snapshot(x.shop.books).watermark.Reaches(k))
    && x'.shop == Shop(NewBooks(saved), map[])
    && Resumes(x.point.state, x'.point.state, saved) && x'.point.view.Nothing? && x'.point.reading.Idle?
  }

  ghost predicate Happens(h: History, x: Site, x': Site)
    requires |h.xids| == |h.log|
  {
    Pulses(h, x, x') || (exists a :: Acts(h, x, x', a)) || (exists saved :: StartsOver(x, x', saved))
  }

  ghost predicate Migrates(h: History, run: seq<Site>)
    requires |h.xids| == |h.log|
  {
    |run| > 0 && Begins(h, run[0]) && forall i :: 0 <= i < |run| - 1 ==> HappensAt(h, run, i)
  }

  /** Nothing is copied yet. */
  ghost predicate Begins(h: History, x: Site)
  {
    && Start(h, x.point.state) && x.point.view.Nothing? && x.point.reading.Idle?
    && x.shop == Shop(NewBooks(Unset), map[])
  }

  ghost predicate HappensAt(h: History, run: seq<Site>, i: nat)
    requires i + 1 < |run| && |h.xids| == |h.log|
  {
    Happens(h, run[i], run[i + 1])
  }

  ghost predicate Fine(h: History, x: Site)
    requires |h.xids| == |h.log|
  {
    Safe(h, x.point) && Tied(x.shop, x.point.state.phase)
  }

  /** A step of the copier is a pulse, whatever the catch-up is about. */
  lemma ElsewhereIsSafe(h: History, m: Point, s': State)
    requires LegalHistory(h) && Safe(h, m) && Elsewhere(h, m.state, s')
    ensures Safe(h, m.(state := s'))
  {
    var m' := m.(state := s');
    assert Pulse(h, m, m');
    assert !Delivers(h, m.state, s') by {
      assert s'.delivered == m.state.delivered;
    }
    PulseKeeps(h, m, m');
  }

  lemma ActIsFine(h: History, x: Site, x': Site, a: Act)
    requires LegalHistory(h) && Fine(h, x) && Acts(h, x, x', a)
    ensures Fine(h, x')
  {
    var s, s' := x.point.state, x'.point.state;
    ReachableHolds(h, s);
    ActIsStep(h, x.shop, s, a, s');
    assert x.point.(state := s) == x.point;
    if s' != s {
      ElsewhereIsSafe(h, x.point, s');
    }
  }

  /** A restart, whatever was under way. */
  lemma RestartIsSafe(h: History, m: Point, m': Point)
    requires LegalHistory(h) && Safe(h, m) && Restarts(m.state, m'.state) && m'.view.Nothing? && m'.reading.Idle?
    requires m'.state.delivered <= m.state.delivered
    ensures Safe(h, m')
  {
    assert Pulse(h, m, m');
    PulseKeeps(h, m, m');
  }

  lemma ShadowFits(h: History, s: State)
    requires LegalHistory(h) && Keyed(h) && Inv(h, s)
    ensures forall k :: k in s.shadow ==> MIN_KEY <= k <= MAX_KEY
  {
    forall k | k in s.shadow ensures MIN_KEY <= k <= MAX_KEY {
      if !(MIN_KEY <= k <= MAX_KEY) { OutsideIsEmpty(h, s, k); }
    }
  }

  lemma ResumeIsFine(h: History, x: Site, x': Site, saved: Watermark)
    requires LegalHistory(h) && Keyed(h) && Fine(h, x) && StartsOver(x, x', saved)
    ensures Fine(h, x')
  {
    var s, s' := x.point.state, x'.point.state;
    ReachableHolds(h, s);
    ShadowFits(h, s);
    ResumeTies(x.shop, saved, s, s');
    RestartIsSafe(h, x.point, x'.point);
  }

  lemma StartIsFine(h: History, x: Site)
    requires |h.xids| == |h.log| && Begins(h, x)
    ensures Fine(h, x)
  {
    StartIsSafe(h, x.point);
    NewTies(Unset, x.point.state.phase);
  }

  lemma HappensKeeps(h: History, x: Site, x': Site)
    requires LegalHistory(h) && Keyed(h) && Fine(h, x) && Happens(h, x, x')
    ensures Fine(h, x')
  {
    if Pulses(h, x, x') {
      PulseKeeps(h, x.point, x'.point);
    } else if a :| Acts(h, x, x', a) {
      ActIsFine(h, x, x', a);
    } else {
      var saved :| StartsOver(x, x', saved);
      ResumeIsFine(h, x, x', saved);
    }
  }

  /** In every state of every such run the protocol could be where it is, and the ledger says of every key what the
      protocol's phase does. */
  lemma {:induction false} MigrationHolds(h: History, run: seq<Site>, i: nat)
    requires LegalHistory(h) && Keyed(h) && Migrates(h, run) && i < |run|
    ensures Fine(h, run[i])
  {
    if i == 0 {
      StartIsFine(h, run[0]);
    } else {
      MigrationHolds(h, run, i - 1);
      assert HappensAt(h, run, i - 1);
      HappensKeeps(h, run[i - 1], run[i]);
    }
  }

  /** Any number of workers, the catch-up and the source at once, stopped and resumed any number of times: when the
      ledger's snapshot reports a watermark at the last key, every change was delivered and nothing is buffered, the
      shadow shows the source. */
  lemma MigrationConverges(h: History, run: seq<Site>, i: nat)
    requires LegalHistory(h) && Keyed(h) && Migrates(h, run) && i < |run|
    requires Snapshot(run[i].shop.books).watermark.Complete()
    requires run[i].point.state.buf.entries == map[] && run[i].point.state.delivered == run[i].point.state.now
    ensures var s := run[i].point.state; forall k :: RowAt(s.shadow, k) == Shown(At(h, s.now, k), h.writable)
  {
    MigrationHolds(h, run, i);
    FinishedIsLanded(run[i].shop, run[i].point.state.phase);
    ReachableConverges(h, run[i].point.state);
  }
}
