/** The catch-up's cycle in its own order (pkg/applier/catchup.go, flusher.go): snapshot, position, drain, then the
    flush's reads, and its commit, each at a moment of its own, while the source commits and the copier goes on in
    between. Every such run is a run of the protocol. */
module CycleOrder {
  import opened Rows
  import opened Protocol
  import opened Delivery
  import opened Convergence
  import opened Copying
  import opened DrainOrder
  import opened FlushOrder

  /** The protocol's state, what the drain has looked at, and what the flush has read. */
  datatype Point = Point(state: State, view: View, reading: Reading)

  function DrainSide(m: Point): (r: Moment)
  {
    Moment(m.state, m.view)
  }

  function FlushSide(m: Point): (r: Instant)
  {
    Instant(m.state, m.reading)
  }

  /** One thing happens: to the drain while no flush has read, or to the flush while no drain looks. */
  ghost predicate Pulse(h: History, m: Point, m': Point)
    requires |h.xids| == |h.log|
  {
    || (m.reading.Idle? && m'.reading.Idle? && Turn(h, DrainSide(m), DrainSide(m')))
    || (m.view.Nothing? && m'.view.Nothing? && Beat(h, FlushSide(m), FlushSide(m')))
  }

  /** A run in this order, in which no key move takes a wrong value along. */
  ghost predicate Cycles(h: History, run: seq<Point>)
    requires |h.xids| == |h.log|
  {
    && |run| > 0 && Start(h, run[0].state) && run[0].view.Nothing? && run[0].reading.Idle?
    && forall i :: 0 <= i < |run| - 1 ==> PulseAt(h, run, i)
  }

  ghost predicate PulseAt(h: History, run: seq<Point>, i: nat)
    requires i + 1 < |run| && |h.xids| == |h.log|
  {
    Pulse(h, run[i], run[i + 1]) && RightPulse(h, run[i], run[i + 1])
  }

  /** A key move delivered takes no wrong value along. */
  ghost predicate RightPulse(h: History, m: Point, m': Point)
    requires |h.xids| == |h.log|
  {
    Delivers(h, m.state, m'.state) ==> MoveIsRight(h, m.state)
  }

  /** The state is one the protocol reaches, and so is whatever the drain or the flush under way leads to, of
      which there is at most one. */
  ghost predicate Safe(h: History, m: Point)
    requires |h.xids| == |h.log|
  {
    (m.view.Nothing? || m.reading.Idle?) && Sound(h, DrainSide(m)) && Sure(h, FlushSide(m))
  }

  lemma PulseKeeps(h: History, m: Point, m': Point)
    requires LegalHistory(h) && Safe(h, m) && Pulse(h, m, m') && RightPulse(h, m, m')
    ensures Safe(h, m')
  {
    if m.reading.Idle? && m'.reading.Idle? && Turn(h, DrainSide(m), DrainSide(m')) {
      TurnKeeps(h, DrainSide(m), DrainSide(m'));
    } else {
      BeatKeeps(h, FlushSide(m), FlushSide(m'));
    }
  }

  lemma StartIsSafe(h: History, m: Point)
    requires |h.xids| == |h.log| && Start(h, m.state) && m.view.Nothing? && m.reading.Idle?
    ensures Safe(h, m)
  {
    assert Run(h, [m.state]);
  }

  /** Every state of a run in the catch-up's own order is one a run of the protocol reaches. */
  lemma {:induction false} CyclesAreReachable(h: History, run: seq<Point>, i: nat)
    requires LegalHistory(h) && Cycles(h, run) && i < |run|
    ensures Safe(h, run[i])
  {
    if i == 0 {
      StartIsSafe(h, run[0]);
    } else {
      CyclesAreReachable(h, run, i - 1);
      assert PulseAt(h, run, i - 1);
      PulseKeeps(h, run[i - 1], run[i]);
    }
  }

  /** A state the protocol reaches, in which every key has landed, every change was delivered and nothing is
      buffered, shows the source. */
  lemma ReachableConverges(h: History, s: State)
    requires LegalHistory(h) && Keyed(h) && Reachable(h, s)
    requires s.buf.entries == map[] && s.delivered == s.now && forall k: int64 :: s.phase(k).Landed?
    ensures forall k :: RowAt(s.shadow, k) == Shown(At(h, s.now, k), h.writable)
  {
    var run :| Run(h, run) && run[|run| - 1] == s;
    Converges(h, run, |run| - 1);
  }

  /** So the shadow converges in every such run. */
  lemma CyclesConverge(h: History, run: seq<Point>, i: nat)
    requires LegalHistory(h) && Keyed(h) && Cycles(h, run) && i < |run|
    requires run[i].state.buf.entries == map[] && run[i].state.delivered == run[i].state.now
    requires forall k: int64 :: run[i].state.phase(k).Landed?
    ensures forall k :: RowAt(run[i].state.shadow, k) == Shown(At(h, run[i].state.now, k), h.writable)
  {
    CyclesAreReachable(h, run, i);
    ReachableConverges(h, run[i].state);
  }
}
