/** What holds of every run of the protocol. */
module Convergence {
  import opened Options
  import opened Rows
  import opened Entries
  import opened Flushing
  import opened Protocol
  import opened Invariant
  import opened Steps
  import opened CatchupSteps
  import opened Delivery
  import opened Copying

  /** States, each one step of the protocol from the one before, from an empty shadow on. */
  ghost predicate Linked(h: History, run: seq<State>)
    requires |h.xids| == |h.log|
  {
    && |run| > 0 && Start(h, run[0])
    && forall i :: 0 <= i < |run| - 1 ==> StepAt(h, run, i)
  }

  ghost predicate StepAt(h: History, run: seq<State>, i: nat)
    requires i + 1 < |run| && |h.xids| == |h.log|
  {
    Next(h, run[i], run[i + 1])
  }

  /** A run in which no key move takes a wrong value along from an image filled in place. */
  ghost predicate Run(h: History, run: seq<State>)
    requires |h.xids| == |h.log|
  {
    Linked(h, run) && forall i :: 0 <= i < |run| - 1 ==> RightAt(h, run, i)
  }

  ghost predicate RightAt(h: History, run: seq<State>, i: nat)
    requires i + 1 < |run| && |h.xids| == |h.log|
  {
    Delivers(h, run[i], run[i + 1]) ==> MoveIsRight(h, run[i])
  }

  lemma Extend(h: History, run: seq<State>, s: State)
    requires |h.xids| == |h.log| && Linked(h, run) && Next(h, run[|run| - 1], s)
    ensures Linked(h, run + [s]) && (run + [s])[|run + [s]| - 1] == s
  {
    var longer := run + [s];
    forall i | 0 <= i < |longer| - 1 ensures StepAt(h, longer, i) {
      assert i < |run| - 1 ==> StepAt(h, run, i);
    }
  }

  lemma ExtendRun(h: History, run: seq<State>, s: State)
    requires |h.xids| == |h.log| && Run(h, run) && Next(h, run[|run| - 1], s)
    requires Delivers(h, run[|run| - 1], s) ==> MoveIsRight(h, run[|run| - 1])
    ensures Run(h, run + [s]) && (run + [s])[|run + [s]| - 1] == s
  {
    Extend(h, run, s);
    var longer := run + [s];
    forall i | 0 <= i < |longer| - 1 ensures RightAt(h, longer, i) {
      assert i < |run| - 1 ==> RightAt(h, run, i);
    }
  }

  lemma StartHolds(h: History, s: State)
    requires LegalHistory(h) && Start(h, s)
    ensures Inv(h, s)
  {
  }

  lemma NextKeeps(h: History, s: State, s': State)
    requires LegalHistory(h) && Inv(h, s) && Next(h, s, s')
    ensures Inv(h, s') <==> (Delivers(h, s, s') ==> MoveIsRight(h, s))
  {
    if Delivers(h, s, s') { DeliverKeeps(h, s, s'); }
    else if Commits(h, s, s') { CommitKeeps(h, s, s'); }
    else if Shows(s, s') { ShowKeeps(h, s, s'); }
    else if Progresses(s, s') { ProgressKeeps(h, s, s'); }
    else if Releases(s, s') { ReleaseKeeps(h, s, s'); }
    else if Drains(h, s, s') { DrainKeeps(h, s, s'); }
    else if Flushes(h, s, s') { FlushKeeps(h, s, s'); }
    else if Defers(h, s, s') { DeferKeeps(h, s, s'); }
    else if Confirms(s, s') { ConfirmKeeps(h, s, s'); }
    else if Claims(s, s') { ClaimKeeps(h, s, s'); }
    else if Copies(h, s, s') { CopyKeeps(h, s, s'); }
    else if Lands(s, s') { LandKeeps(h, s, s'); }
    else { RestartKeeps(h, s, s'); }
  }

  /** However a state came about, if the invariant holds in it, it holds in every state the protocol goes on to
      while no key move takes a wrong value along: a wrong value that was overwritten in time does no harm. */
  lemma {:induction false} HoldsFrom(h: History, path: seq<State>, i: nat)
    requires LegalHistory(h) && i < |path| && Inv(h, path[0])
    requires forall j :: 0 <= j < i ==> StepAt(h, path, j) && RightAt(h, path, j)
    ensures Inv(h, path[i])
  {
    if i > 0 {
      HoldsFrom(h, path, i - 1);
      assert StepAt(h, path, i - 1) && RightAt(h, path, i - 1);
      NextKeeps(h, path[i - 1], path[i]);
    }
  }

  lemma RunHolds(h: History, run: seq<State>, i: nat)
    requires LegalHistory(h) && Run(h, run) && i < |run|
    ensures Inv(h, run[i])
  {
    StartHolds(h, run[0]);
    HoldsFrom(h, run, i);
  }

  /** The invariant holds in every state of a run of the protocol as coded if and only if no key move in
      it takes a wrong value along. */
  lemma HoldsExactly(h: History, run: seq<State>)
    requires LegalHistory(h) && Linked(h, run)
    ensures (forall i :: 0 <= i < |run| ==> Inv(h, run[i])) <==> Run(h, run)
  {
    if forall i :: 0 <= i < |run| ==> Inv(h, run[i]) {
      forall i | 0 <= i < |run| - 1 ensures RightAt(h, run, i) {
        assert StepAt(h, run, i) && Inv(h, run[i]) && Inv(h, run[i + 1]);
        NextKeeps(h, run[i], run[i + 1]);
      }
    }
    if Run(h, run) {
      forall i | 0 <= i < |run| ensures Inv(h, run[i]) {
        RunHolds(h, run, i);
      }
    }
  }

  /** A run of the protocol as coded in which every key move carries the columns the fallback filled in
      the image it starts from is such a run. */
  lemma CarriedRuns(h: History, run: seq<State>)
    requires LegalHistory(h) && Linked(h, run)
    requires forall i :: 0 <= i < |run| - 1 && Delivers(h, run[i], run[i + 1]) ==> CarriesFilled(h, run[i])
    ensures Run(h, run)
  {
    forall i | 0 <= i < |run| - 1 ensures RightAt(h, run, i) {
      if Delivers(h, run[i], run[i + 1]) {
        CarriedIsRight(h, run[i]);
      }
    }
  }

  // ------------------------------------------------------- replaying one key

  /** The shadow row of a key after replaying the key's changes in `[x, n)` over it: a row put there
      or taken away replaces it, an UPDATE assigns the columns it carries. */
  function Replay(h: History, row: Option<Row>, k: Key, x: nat, n: nat): (r: Option<Row>)
    requires x <= n <= |h.log|
  {
    if x == n then row
    else
      var before := Replay(h, row, k, x, n - 1);
      var ch := h.log[n - 1];
      if Resets(ch, k) then Shown(At(h, n, k), h.writable)
      else if ch.Update? && ch.key == k && before.Some? then Some(Patch(before.value, ch.cols))
      else before
  }

  /** Replay, column by column. */
  lemma {:induction false} ReplayColumns(h: History, row: Option<Row>, k: Key, x: nat, n: nat)
    requires LegalHistory(h) && x <= n <= |h.log|
    requires row.Some? ==> row.value.Keys == h.writable
    ensures var r := Replay(h, row, k, x, n);
            && (r.Some? ==> r.value.Keys == h.writable)
            && (Reset(h, k, x, n) ==> r == Shown(At(h, n, k), h.writable))
            && (!Reset(h, k, x, n) ==>
                  && r.Some? == row.Some?
                  && (At(h, n, k).Some? ==> At(h, n, k).value.Keys == h.decoded)
                  && (r.Some? ==> forall c :: c in h.writable ==>
                        if Patched(h, k, c, x, n)
                        then At(h, n, k).Some? && r.value[c] == At(h, n, k).value[c]
                        else r.value[c] == row.value[c]))
  {
    AtShape(h, n, k);
    if x < n {
      ReplayColumns(h, row, k, x, n - 1);
      AtStep(h, n - 1, k);
      var before, r, ch := Replay(h, row, k, x, n - 1), Replay(h, row, k, x, n), h.log[n - 1];
      if Resets(ch, k) {
        assert Reset(h, k, x, n);
      } else if Reset(h, k, x, n - 1) {
        assert Reset(h, k, x, n);
        if At(h, n, k).Some? && r.Some? {
          assert r.value == Project(At(h, n, k).value, h.writable);
        }
      } else {
        assert !Reset(h, k, x, n);
        if r.Some? {
          forall c | c in h.writable
            ensures if Patched(h, k, c, x, n)
                    then At(h, n, k).Some? && r.value[c] == At(h, n, k).value[c]
                    else r.value[c] == row.value[c]
          {
            if Patches(ch, k, c) {
              assert Patched(h, k, c, x, n);
            } else {
              assert Patched(h, k, c, x, n - 1) <==> Patched(h, k, c, x, n);
            }
          }
        }
      }
    }
  }

  /** `Tracks` says exactly that the replay ends in the source's row. */
  lemma TracksReplays(h: History, row: Option<Row>, k: Key, x: nat, n: nat)
    requires LegalHistory(h) && x <= n <= |h.log|
    requires row.Some? ==> row.value.Keys == h.writable
    ensures Tracks(h, row, k, x, n) <==> Replay(h, row, k, x, n) == Shown(At(h, n, k), h.writable)
  {
    ReplayColumns(h, row, k, x, n);
    AtShape(h, n, k);
    var r, src := Replay(h, row, k, x, n), Shown(At(h, n, k), h.writable);
    if !Reset(h, k, x, n) && row.Some? && src.Some? {
      if Tracks(h, row, k, x, n) {
        forall c | c in h.writable ensures r.value[c] == src.value[c] {
        }
        assert r.value == src.value;
      }
      if r == src {
        forall c | c in h.writable && !Patched(h, k, c, x, n)
          ensures HadValue(h, k, c, row.value[c], n)
        {
        }
      }
    }
  }

  // ------------------------------------------------------- the theorems

  /** In every state of every run, the shadow row of a landed key, with the key's unflushed and
      undelivered changes replayed over it, is the source's row. */
  lemma LandedKeysConverge(h: History, run: seq<State>, i: nat, k: Key)
    requires LegalHistory(h) && Run(h, run) && i < |run| && run[i].phase(k).Landed?
    ensures First(run[i], k) <= run[i].now <= |h.log|
    ensures Replay(h, RowAt(run[i].shadow, k), k, First(run[i], k), run[i].now) ==
            Shown(At(h, run[i].now, k), h.writable)
  {
    var s := run[i];
    RunHolds(h, run, i);
    FirstInRange(h, s, k);
    assert KeyInv(h, s, k);
    TracksReplays(h, RowAt(s.shadow, k), k, First(s, k), s.now);
  }

  /** The source's keys are 64-bit integers: it never has a row anywhere else. */
  ghost predicate Keyed(h: History)
  {
    forall n, k :: 0 <= n <= |h.log| && At(h, n, k).Some? ==> MIN_KEY <= k <= MAX_KEY
  }

  /** No change touches any other key. */
  lemma NothingOutside(h: History, k: Key)
    requires LegalHistory(h) && Keyed(h) && !(MIN_KEY <= k <= MAX_KEY)
    ensures Quiet(h, k, 0, |h.log|)
  {
    forall i | 0 <= i < |h.log| ensures !Touches(h.log[i], k) {
      AtStep(h, i, k);
      assert At(h, i, k).None? && At(h, i + 1, k).None?;
    }
  }

  /** So nothing is ever buffered or shadowed there. */
  lemma OutsideIsEmpty(h: History, s: State, k: Key)
    requires LegalHistory(h) && Inv(h, s) && Keyed(h) && !(MIN_KEY <= k <= MAX_KEY)
    ensures k !in s.buf.entries && k !in s.shadow && At(h, s.now, k).None?
  {
    NothingOutside(h, k);
    assert KeyInv(h, s, k);
  }

  /** Convergence: once every 64-bit key has landed, every change was delivered and nothing is buffered, the
      shadow is the source. */
  lemma Converges(h: History, run: seq<State>, i: nat)
    requires LegalHistory(h) && Keyed(h) && Run(h, run) && i < |run|
    requires run[i].buf.entries == map[] && run[i].delivered == run[i].now
    requires forall k: int64 :: run[i].phase(k).Landed?
    ensures forall k :: RowAt(run[i].shadow, k) == Shown(At(h, run[i].now, k), h.writable)
  {
    var s := run[i];
    RunHolds(h, run, i);
    forall k ensures RowAt(s.shadow, k) == Shown(At(h, s.now, k), h.writable) {
      if MIN_KEY <= k <= MAX_KEY {
        assert k !in s.notes;
        LandedKeysConverge(h, run, i, k);
      } else {
        OutsideIsEmpty(h, s, k);
      }
    }
  }

  /** The keys of the table and of every change to it are 64-bit integers. */
  predicate KeysFit(base: Table, log: seq<Change>)
  {
    && (forall k :: k in base ==> MIN_KEY <= k <= MAX_KEY)
    && (forall i :: 0 <= i < |log| ==> MIN_KEY <= log[i].key <= MAX_KEY)
  }

  lemma {:induction false} SrcFits(base: Table, log: seq<Change>, n: nat)
    requires KeysFit(base, log) && n <= |log|
    ensures forall k :: k in Src(base, log, n) ==> MIN_KEY <= k <= MAX_KEY
  {
    if n > 0 {
      SrcFits(base, log, n - 1);
    }
  }

  /** The same, for the history of a table: the shadow table is the source table. */
  lemma TableConverges(decoded: set<Name>, writable: set<Name>, conflicts: (Row, Row) -> bool,
                       base: Table, log: seq<Change>, xids: seq<nat>, run: seq<State>, i: nat)
    requires LegalLog(decoded, base, log) && writable <= decoded && |xids| == |log|
    requires Run(HistoryOf(decoded, writable, conflicts, base, log, xids), run) && i < |run|
    requires run[i].buf.entries == map[] && run[i].delivered == run[i].now
    requires KeysFit(base, log) && forall k: int64 :: run[i].phase(k).Landed?
    ensures run[i].now <= |log|
    ensures run[i].shadow ==
            map k | k in Src(base, log, run[i].now) :: Project(Src(base, log, run[i].now)[k], writable)
  {
    var h, s := HistoryOf(decoded, writable, conflicts, base, log, xids), run[i];
    HistoryIsLegal(decoded, writable, conflicts, base, log, xids);
    RunHolds(h, run, i);
    forall n, k | 0 <= n <= |h.log| && At(h, n, k).Some? ensures MIN_KEY <= k <= MAX_KEY {
      SrcFits(base, log, n);
    }
    Converges(h, run, i);
    var src := Src(base, log, s.now);
    var target := map k | k in src :: Project(src[k], writable);
    forall k ensures RowAt(s.shadow, k) == RowAt(target, k) {
      assert RowAt(s.shadow, k) == Shown(At(h, s.now, k), writable);
    }
    SameTable(s.shadow, target);
  }

  lemma SameTable(t: Table, u: Table)
    requires forall k :: RowAt(t, k) == RowAt(u, k)
    ensures t == u
  {
    forall k ensures k in t <==> k in u
             ensures k in t ==> t[k] == u[k]
    {
      assert RowAt(t, k) == RowAt(u, k);
    }
  }

  /** The buffer accepts every change the source makes, in every state of every run. */
  lemma RunNeverRefuses(h: History, run: seq<State>, i: nat)
    requires LegalHistory(h) && Run(h, run) && i < |run| && run[i].delivered < run[i].now
    ensures run[i].now <= |h.log| && Add(run[i].buf, NextEvent(h, run[i])).Some?
  {
    RunHolds(h, run, i);
    NeverRefuses(h, run[i]);
  }

  /** Restart safety: no run is ever resumed past a change that is neither in the shadow nor waived
      as uncut, whatever position at or below the confirmed one it is resumed from. */
  lemma ResumeMissesNothing(h: History, run: seq<State>, i: nat, k: Key)
    requires LegalHistory(h) && Run(h, run) && i < |run|
    ensures run[i].resume <= First(run[i], k)
    ensures k in run[i].buf.entries ==> run[i].resume <= run[i].buf.entries[k].firstLSN
  {
    RunHolds(h, run, i);
    if k in run[i].notes {
      assert EntryInv(h, run[i], k);
    }
  }

  /** Both refusals of Confirm are unreachable: in every state of every run the bound lies at or above
      the position confirmed and at or below the one delivered. */
  lemma ConfirmNeverRefused(h: History, run: seq<State>, i: nat, bound: nat)
    requires LegalHistory(h) && Run(h, run) && i < |run| && IsConfirmBound(run[i], bound)
    ensures run[i].confirmed <= bound <= run[i].position
    ensures forall k :: k in run[i].notes ==> bound <= run[i].notes[k].first
  {
    RunHolds(h, run, i);
    forall k | k in run[i].buf.entries
      ensures run[i].resume <= run[i].buf.entries[k].firstLSN <= run[i].notes[k].first
    {
      assert EntryInv(h, run[i], k);
    }
  }

  /** A completion that Release lets in is the value the image's own row has on the source. */
  lemma ReleasedCompletions(h: History, run: seq<State>, i: nat, k: Key, c: Name)
    requires LegalHistory(h) && Run(h, run) && i < |run|
    requires k in run[i].buf.pending && run[i].buf.pending[k].readLSN <= run[i].position
    requires c in run[i].buf.pending[k].columns && k in run[i].buf.entries && Marked(run[i].buf.entries[k], c)
    ensures run[i].buf.pending[k].columns[c].Has?
    ensures HadValue(h, k, c, run[i].buf.pending[k].columns[c].value, run[i].delivered)
  {
    RunHolds(h, run, i);
    assert EntryInv(h, run[i], k);
    ReleasedIsRight(h, run[i], k, c);
  }

  /** The refusal of an image whose row is still absent after the wait is unreachable: such an image
      is replaced before it is let back in, so no flush ever sees one. */
  lemma AbsenceNeverRefused(h: History, run: seq<State>, i: nat, k: Key, read: nat)
    requires LegalHistory(h) && Run(h, run) && i < |run|
    requires run[i].batch.Some? && k in run[i].batch.value.keys && k in run[i].buf.entries
    requires run[i].batch.value.since(k) <= read <= run[i].now
    ensures run[i].now <= |h.log|
    ensures FateOf(h.writable, run[i].shadow, At(h, read, k), k, run[i].buf.entries[k]) != Refuse
    ensures run[i].buf.entries[k].Image? ==> !run[i].buf.entries[k].absenceAwaited
  {
    RunHolds(h, run, i);
    WriteTracks(h, run[i], k, read);
    assert EntryInv(h, run[i], k);
  }
}
