/** A drain in the order the catch-up takes it (pkg/applier/catchup.go): a snapshot of the source, then the
    copier's position, then the drain, while the source commits and the workers go on in between. Wherever it
    gets to, the protocol gets to as well, whose drain looks at everything in one instant; taken the other way
    round, that is not so. */
module DrainOrder {
  import opened Options
  import opened Rows
  import opened Entries
  import opened Protocol
  import opened Invariant
  import opened Delivery
  import opened Convergence

  /** What the catch-up holds between two of its actions: nothing, a snapshot, or a snapshot and the copier's
      position read after it, with what readers saw then. */
  datatype View =
    | Nothing
    | Snapped(visible: nat -> bool)
    | Observed(visible: nat -> bool, phase: Key -> Phase, since: Key -> nat)

  datatype Moment = Moment(state: State, view: View)

  /** What the source and the copier's workers do whatever the catch-up is about. */
  ghost predicate Elsewhere(h: History, s: State, s': State)
  {
    Commits(h, s, s') || Shows(s, s') || Claims(s, s') || Copies(h, s, s') || Lands(s, s')
  }

  /** The drain, deciding by the position and the snapshot it was given. */
  ghost predicate Takes(s: State, s': State, v: View)
    requires v.Observed?
  {
    && s.batch.None? && s'.batch.Some?
    && s'.batch.value.since == v.since
    && s'.buf.pending == s.buf.pending
    && s' == s.(buf := s'.buf, notes := s'.notes, batch := s'.batch)
    && DrainChoice(s.(phase := v.phase), s', v.visible)
  }

  ghost predicate Turn(h: History, m: Moment, m': Moment)
    requires |h.xids| == |h.log|
  {
    || (m'.view == m.view && Elsewhere(h, m.state, m'.state))
    || (m.view.Nothing? && m'.view.Nothing? && Next(h, m.state, m'.state) && !Drains(h, m.state, m'.state))
    || (&& m.view.Nothing? && m'.view.Snapped? && m'.state == m.state && m.state.batch.None?
        && SoundSnapshot(h, m.state, m'.view.visible))
    || (&& m.view.Snapped? && m'.state == m.state
        && m'.view == Observed(m.view.visible, m.state.phase, m.state.seen))
    || (m.view.Observed? && m'.view.Nothing? && Takes(m.state, m'.state, m.view))
    || (m'.view.Nothing? && Restarts(m.state, m'.state))
  }

  /** A state some run of the protocol ends in. */
  ghost predicate Reachable(h: History, s: State)
    requires |h.xids| == |h.log|
  {
    exists run :: Run(h, run) && run[|run| - 1] == s
  }

  lemma ReachableHolds(h: History, s: State)
    requires LegalHistory(h) && Reachable(h, s)
    ensures Inv(h, s)
  {
    var run :| Run(h, run) && run[|run| - 1] == s;
    RunHolds(h, run, |run| - 1);
  }

  lemma StepReaches(h: History, s: State, s': State)
    requires |h.xids| == |h.log| && Reachable(h, s) && Next(h, s, s')
    requires Delivers(h, s, s') ==> MoveIsRight(h, s)
    ensures Reachable(h, s')
  {
    var run :| Run(h, run) && run[|run| - 1] == s;
    ExtendRun(h, run, s');
  }

  /** A snapshot stays sound while readers come to see more. */
  lemma SoundStays(h: History, s: State, s': State, visible: nat -> bool)
    requires |h.xids| == |h.log| && SoundSnapshot(h, s, visible) && Elsewhere(h, s, s')
    ensures SoundSnapshot(h, s', visible) && s'.batch == s.batch
  {
  }

  /** What others do after a drain they would have done before it. */
  lemma ElsewhereCommutes(h: History, s: State, s': State, d: State, d': State)
    requires Elsewhere(h, s, s')
    requires d == s.(buf := d.buf, notes := d.notes, batch := d.batch)
    requires d' == s'.(buf := d.buf, notes := d.notes, batch := d.batch)
    ensures Elsewhere(h, d, d')
  {
    if Copies(h, s, s') {
      assert Copies(h, d, d');
    }
  }

  /** Whatever the drain will decide by what was observed, the state it leads to is reachable. */
  ghost predicate Drainable(h: History, m: Moment)
    requires |h.xids| == |h.log| && m.view.Observed?
  {
    forall d :: Takes(m.state, d, m.view) ==> Reachable(h, d)
  }

  lemma ObservedIsDrainable(h: History, s: State, visible: nat -> bool)
    requires |h.xids| == |h.log| && Reachable(h, s) && SoundSnapshot(h, s, visible)
    ensures Drainable(h, Moment(s, Observed(visible, s.phase, s.seen)))
  {
    var v := Observed(visible, s.phase, s.seen);
    assert s.(phase := v.phase) == s;
    forall d | Takes(s, d, v) ensures Reachable(h, d) {
      assert Drains(h, s, d);
      StepReaches(h, s, d);
    }
  }

  /** The drain could have decided the same before the step. */
  lemma TakesBefore(s: State, s': State, d: State, d': State, v: View)
    requires v.Observed? && Takes(s', d', v) && s'.buf == s.buf && s'.notes == s.notes && s'.batch == s.batch
    requires d == s.(buf := d'.buf, notes := d'.notes, batch := d'.batch)
    ensures Takes(s, d, v) && d' == s'.(buf := d.buf, notes := d.notes, batch := d.batch)
  {
  }

  lemma StaysDrainable(h: History, m: Moment, s': State)
    requires |h.xids| == |h.log| && m.view.Observed? && Drainable(h, m) && Elsewhere(h, m.state, s')
    ensures Drainable(h, Moment(s', m.view))
  {
    forall d' | Takes(s', d', m.view) ensures Reachable(h, d') {
      var d := m.state.(buf := d'.buf, notes := d'.notes, batch := d'.batch);
      TakesBefore(m.state, s', d, d', m.view);
      ElsewhereCommutes(h, m.state, s', d, d');
      StepReaches(h, d, d');
    }
  }

  ghost predicate Sound(h: History, m: Moment)
    requires |h.xids| == |h.log|
  {
    && Reachable(h, m.state)
    && (m.view.Snapped? ==> SoundSnapshot(h, m.state, m.view.visible))
    && (m.view.Observed? ==> Drainable(h, m))
  }

  lemma TurnKeeps(h: History, m: Moment, m': Moment)
    requires |h.xids| == |h.log| && Sound(h, m) && Turn(h, m, m')
    requires Delivers(h, m.state, m'.state) ==> MoveIsRight(h, m.state)
    ensures Sound(h, m')
  {
    if m'.view == m.view && Elsewhere(h, m.state, m'.state) {
      StepReaches(h, m.state, m'.state);
      if m.view.Snapped? {
        SoundStays(h, m.state, m'.state, m.view.visible);
      } else if m.view.Observed? {
        StaysDrainable(h, m, m'.state);
      }
    } else if m.view.Snapped? && m'.view.Observed? {
      ObservedIsDrainable(h, m.state, m.view.visible);
    } else if m'.view.Nothing? && !(m.view.Observed? && Takes(m.state, m'.state, m.view)) {
      StepReaches(h, m.state, m'.state);
    }
  }

  // ------------------------------------------------------- the other way round

  const ROW: Row := map["c" := Null]

  /** One row is inserted at key 1. */
  function OneInsert(): (r: History)
  {
    HistoryOf({"c"}, {"c"}, (r: Row, r': Row) => false, map[], [Insert(1, ROW)], [7])
  }

  lemma OneInsertIs()
    ensures LegalHistory(OneInsert()) && OneInsert().log == [Insert(1, ROW)] && OneInsert().xids == [7]
    ensures (forall k :: At(OneInsert(), 0, k).None?) && At(OneInsert(), 1, 1) == Some(ROW)
  {
    var log := [Insert(1, ROW)];
    assert Src(map[], log, 0) == map[] && Src(map[], log, 1) == map[1 := ROW];
    assert LegalAt({"c"}, map[], log, 0);
    HistoryIsLegal({"c"}, {"c"}, (r: Row, r': Row) => false, map[], log, [7]);
  }

  /** The insert has committed and was delivered, and no reader sees it yet; nothing is claimed. */
  function Early(): (r: State)
  {
    State(1, (k: Key) => 0, 1, 0, 0, 0, Buf(map[1 := Image(None, false, false, map["c" := Has(Null)], 0, 7)], map[]),
          map[1 := Note(0, {})], None, (k: Key) => Uncut, map[])
  }

  function Late(): (r: State)
  {
    Early().(phase := (k: Key) => Landed, seen := (k: Key) => 1)
  }

  lemma ReachEarly(h: History) returns (run: seq<State>)
    requires h == OneInsert()
    ensures Linked(h, run) && run[|run| - 1] == Early()
  {
    OneInsertIs();
    var s0 := State(0, Early().seen, 0, 0, 0, 0, EMPTY, map[], None, Early().phase, map[]);
    var s1 := s0.(now := 1);
    run := [s0];
    Extend(h, run, s1);
    run := run + [s1];
    assert Carry(ROW) == map["c" := Has(Null)];
    assert MarkReused(EMPTY, 1, None) == EMPTY;
    assert Add(s1.buf, NextEvent(h, s1)) == Some(Early().buf);
    assert Delivers(h, s1, Early());
    Extend(h, run, Early());
    run := run + [Early()];
  }

  /** Every key is copied as readers see it, without the row, and landed; then readers see the insert. */
  lemma CopyUnseen(h: History, run: seq<State>) returns (longer: seq<State>)
    requires h == OneInsert() && Linked(h, run) && run[|run| - 1] == Early()
    ensures Linked(h, longer) && |longer| == |run| + 4 && longer[..|run|] == run
    ensures forall i :: |run| - 1 <= i < |longer| - 1 ==> Elsewhere(h, longer[i], longer[i + 1])
    ensures longer[|longer| - 1] == Late()
  {
    OneInsertIs();
    var s2 := Early();
    var s3 := s2.(phase := (k: Key) => Claimed(0));
    var s4 := s3.(phase := (k: Key) => Copied);
    var s6 := Late();
    var s5 := s4.(phase := s6.phase);
    assert Claims(s2, s3);
    forall k ensures CopiedKey(h, s3, s4, k) {
      assert RowAt(s4.shadow, k) == Shown(At(h, 0, k), h.writable);
    }
    assert Copies(h, s3, s4);
    assert Lands(s4, s5);
    assert Shows(s5, s6);
    Extend(h, run, s3);
    Extend(h, run + [s3], s4);
    Extend(h, run + [s3] + [s4], s5);
    Extend(h, run + [s3] + [s4] + [s5], s6);
    longer := run + [s3] + [s4] + [s5] + [s6];
  }

  /** With the position read before the snapshot, a drain loses a change: it takes a key for uncut that was
      copied in the meantime, without a change that only the later snapshot shows. */
  lemma PositionFirstLoses() returns (h: History, run: seq<State>, at: nat, visible: nat -> bool, d: State)
    ensures LegalHistory(h) && Linked(h, run) && at < |run|
    ensures forall i :: at <= i < |run| - 1 ==> Elsewhere(h, run[i], run[i + 1])
    ensures SoundSnapshot(h, run[|run| - 1], visible)
    ensures Takes(run[|run| - 1], d, Observed(visible, run[at].phase, run[at].seen))
    ensures d.buf.entries == map[] && d.delivered == d.now == |h.log| && (forall k :: d.phase(k).Landed?)
    ensures RowAt(d.shadow, 1) != Shown(At(h, d.now, 1), h.writable)
  {
    h := OneInsert();
    OneInsertIs();
    run := ReachEarly(h);
    at := |run| - 1;
    run := CopyUnseen(h, run);
    visible := (x: nat) => true;
    var s := Late();
    d := s.(buf := EMPTY, notes := map[], batch := Some(Batch({}, Early().seen)));
    assert run[at] == Early();
    assert Takes(s, d, Observed(visible, Early().phase, Early().seen));
  }
}
