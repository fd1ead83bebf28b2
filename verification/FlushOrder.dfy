/** A flush in the order its transaction takes it (pkg/applier/flusher.go): it reads what it needs, noting the
    position of the read, and commits later, while the source commits and the copier goes on in between.
    Wherever it gets to, the protocol gets to as well, whose flush reads and commits in one instant. */
module FlushOrder {
  import opened Options
  import opened Rows
  import opened Protocol
  import opened Delivery
  import opened Convergence
  import opened DrainOrder

  /** Where a flush stands: none has read, or one has, and `result` is what it would leave had it committed
      then. */
  datatype Reading = Idle | HasRead(result: State)

  datatype Instant = Instant(state: State, reading: Reading)

  /** The flush commits at `t` what it decided on when it read: its writes over the shadow as it stands now, and
      its completions with the position of the read. */
  ghost predicate CommitsLate(f: State, t: State, t': State)
    requires t.batch.Some?
  {
    && t' == t.(buf := f.buf, notes := f.notes, batch := None, shadow := t'.shadow)
    && forall k :: if k in t.batch.value.keys then SameRow(f, t', k) else SameRow(t, t', k)
  }

  ghost predicate Beat(h: History, m: Instant, m': Instant)
    requires |h.xids| == |h.log|
  {
    || (m'.reading == m.reading && Elsewhere(h, m.state, m'.state))
    || (m.reading.Idle? && m'.reading.Idle? && Next(h, m.state, m'.state) && !Flushes(h, m.state, m'.state))
    || (m.reading.Idle? && m'.reading.HasRead? && m'.state == m.state && Writes(h, m.state, m'.reading.result))
    || (&& m.reading.HasRead? && m'.reading.Idle? && m.state.batch.Some?
        && CommitsLate(m.reading.result, m.state, m'.state) && Consistent(h.conflicts, m'.state.shadow))
    || (m.reading.HasRead? && m'.reading.Idle? && m'.state == m.state)
    || (m'.reading.Idle? && Restarts(m.state, m'.state))
  }

  /** Whenever the flush commits, the state it leads to is reachable. */
  ghost predicate Committable(h: History, t: State, f: State)
    requires |h.xids| == |h.log|
  {
    && t.batch.Some? && (forall k :: k in t.batch.value.keys ==> t.phase(k).Landed?)
    && forall t' :: CommitsLate(f, t, t') && Consistent(h.conflicts, t'.shadow) ==> Reachable(h, t')
  }

  /** Committed at once, it is the protocol's flush. */
  lemma AtOnce(h: History, s: State, f: State, t': State)
    requires |h.xids| == |h.log| && Writes(h, s, f) && CommitsLate(f, s, t')
    ensures t' == f
  {
    var read: Key -> nat :| FlushReads(h, s, f, read);
    forall k ensures RowAt(f.shadow, k) == RowAt(t'.shadow, k) {
      assert FlushKey(h, s, f, k, At(h, read(k), k));
      assert if k in s.batch.value.keys then SameRow(f, t', k) else SameRow(s, t', k);
    }
    SameTable(f.shadow, t'.shadow);
  }

  lemma ReadIsCommittable(h: History, s: State, f: State)
    requires LegalHistory(h) && Reachable(h, s) && Writes(h, s, f)
    ensures Committable(h, s, f)
  {
    var run :| Run(h, run) && run[|run| - 1] == s;
    RunHolds(h, run, |run| - 1);
    forall t' | CommitsLate(f, s, t') && Consistent(h.conflicts, t'.shadow) ensures Reachable(h, t') {
      AtOnce(h, s, f, t');
      StepReaches(h, s, t');
    }
  }

  /** What the flush would leave, committed at `t`. */
  lemma Committing(t: State, f: State) returns (t': State)
    requires t.batch.Some?
    ensures CommitsLate(f, t, t')
  {
    var keys := t.batch.value.keys;
    t' := t.(buf := f.buf, notes := f.notes, batch := None,
             shadow := map k | k in t.shadow.Keys + f.shadow.Keys && k in (if k in keys then f.shadow else t.shadow) ::
                         if k in keys then f.shadow[k] else t.shadow[k]);
  }

  /** Nothing but the flush writes a landed key, and a pass only adds rows. */
  lemma StepAdds(h: History, t: State, u: State, k: Key)
    requires Elsewhere(h, t, u)
    ensures u.batch == t.batch && u.buf == t.buf && u.notes == t.notes
    ensures k in t.shadow ==> SameRow(t, u, k)
    ensures t.phase(k).Landed? ==> u.phase(k).Landed? && SameRow(t, u, k)
  {
    if Copies(h, t, u) {
      assert (u.phase(k) == t.phase(k) && SameRow(t, u, k)) || CopiedKey(h, t, u, k);
    }
  }

  /** Fewer rows break no constraint that more rows keep. */
  lemma FewerIsConsistent(conflicts: (Row, Row) -> bool, few: Table, many: Table)
    requires Consistent(conflicts, many) && forall k :: k in few ==> k in many && few[k] == many[k]
    ensures Consistent(conflicts, few)
  {
  }

  /** The step after the flush that the step before it would have been. */
  lemma CopyCommutes(h: History, t: State, u: State, t': State, u': State, f: State)
    requires Copies(h, t, u) && t.batch.Some? && (forall k :: k in t.batch.value.keys ==> t.phase(k).Landed?)
    requires CommitsLate(f, t, t') && CommitsLate(f, u, u') && Consistent(h.conflicts, u'.shadow)
    ensures Copies(h, t', u')
  {
    forall k ensures (u'.phase(k) == t'.phase(k) && SameRow(t', u', k)) || CopiedKey(h, t', u', k) {
      assert (u.phase(k) == t.phase(k) && SameRow(t, u, k)) || CopiedKey(h, t, u, k);
      assert if k in t.batch.value.keys then SameRow(f, t', k) else SameRow(t, t', k);
      assert if k in u.batch.value.keys then SameRow(f, u', k) else SameRow(u, u', k);
    }
  }

  lemma QuietCommutes(h: History, t: State, u: State, t': State, u': State, f: State)
    requires Elsewhere(h, t, u) && !Copies(h, t, u) && t.batch.Some?
    requires CommitsLate(f, t, t') && CommitsLate(f, u, u')
    ensures Elsewhere(h, t', u')
  {
    forall k ensures RowAt(t'.shadow, k) == RowAt(u'.shadow, k) {
      assert if k in t.batch.value.keys then SameRow(f, t', k) else SameRow(t, t', k);
      assert if k in u.batch.value.keys then SameRow(f, u', k) else SameRow(u, u', k);
    }
    SameTable(t'.shadow, u'.shadow);
  }

  lemma StaysCommittable(h: History, t: State, u: State, f: State)
    requires |h.xids| == |h.log| && Committable(h, t, f) && Elsewhere(h, t, u)
    ensures Committable(h, u, f)
  {
    forall k ensures k in t.batch.value.keys ==> u.phase(k).Landed? {
      StepAdds(h, t, u, k);
    }
    StepAdds(h, t, u, 0);
    forall u' | CommitsLate(f, u, u') && Consistent(h.conflicts, u'.shadow) ensures Reachable(h, u') {
      CommitsBefore(h, t, u, u', f);
    }
  }

  lemma LeavesFewer(h: History, t: State, u: State, t': State, u': State, f: State)
    requires Elsewhere(h, t, u) && t.batch.Some? && u.batch == t.batch
    requires CommitsLate(f, t, t') && CommitsLate(f, u, u') && Consistent(h.conflicts, u'.shadow)
    ensures Consistent(h.conflicts, t'.shadow)
  {
    forall k | k in t'.shadow ensures k in u'.shadow && t'.shadow[k] == u'.shadow[k] {
      StepAdds(h, t, u, k);
      assert if k in t.batch.value.keys then SameRow(f, t', k) else SameRow(t, t', k);
      assert if k in u.batch.value.keys then SameRow(f, u', k) else SameRow(u, u', k);
    }
    FewerIsConsistent(h.conflicts, t'.shadow, u'.shadow);
  }

  lemma CommitsBefore(h: History, t: State, u: State, u': State, f: State)
    requires |h.xids| == |h.log| && Committable(h, t, f) && Elsewhere(h, t, u)
    requires u.batch == t.batch && CommitsLate(f, u, u') && Consistent(h.conflicts, u'.shadow)
    ensures Reachable(h, u')
  {
    var t' := Committing(t, f);
    LeavesFewer(h, t, u, t', u', f);
    if Copies(h, t, u) {
      CopyCommutes(h, t, u, t', u', f);
    } else {
      QuietCommutes(h, t, u, t', u', f);
    }
    StepReaches(h, t', u');
  }

  ghost predicate Sure(h: History, m: Instant)
    requires |h.xids| == |h.log|
  {
    Reachable(h, m.state) && (m.reading.HasRead? ==> Committable(h, m.state, m.reading.result))
  }

  lemma BeatKeeps(h: History, m: Instant, m': Instant)
    requires LegalHistory(h) && Sure(h, m) && Beat(h, m, m')
    requires Delivers(h, m.state, m'.state) ==> MoveIsRight(h, m.state)
    ensures Sure(h, m')
  {
    if m'.reading == m.reading && Elsewhere(h, m.state, m'.state) {
      StepReaches(h, m.state, m'.state);
      if m.reading.HasRead? {
        StaysCommittable(h, m.state, m'.state, m.reading.result);
      }
    } else if m'.reading.HasRead? {
      ReadIsCommittable(h, m.state, m'.reading.result);
    } else if m.reading.Idle? || Restarts(m.state, m'.state) {
      StepReaches(h, m.state, m'.state);
    }
  }
}
