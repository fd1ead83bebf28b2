/** Where the protocol as coded does not converge, and exactly when a delivery goes wrong. */
module Counterexample {
  import opened Options
  import opened Rows
  import opened Entries
  import opened Flushing
  import opened Protocol
  import opened Invariant
  import opened CatchupSteps
  import opened Convergence
  import opened Steps
  import opened ExampleRows
  import opened Copying

  // ------------------------------------------------------- the exact condition

  /** Putting a refused batch back leaves an entry as the drain handed it out exactly when the
      fallback found nothing to fill in it. */
  lemma RequeuedUnchanged(writable: set<Name>, shadow: Table, k: Key, e: Entry)
    ensures Refilled(writable, shadow, k, e) == e <==> FilledNames(writable, shadow, k, e) == {}
  {
  }

  // ------------------------------------------------------- a run that diverges

  const MINE: Value := Text("mine")
  const OTHER: Value := Text("other")

  /** Column `c` is the one the stream leaves out. */
  const TOUCH: Columns := map["a" := Has(X), "c" := Marker]
  const MINE_ROW: Row := map["a" := X, "c" := MINE]
  const OTHER_ROW: Row := map["a" := Y, "c" := OTHER]
  const BASE: Table := map[1 := MINE_ROW]

  /** The row at key 1 is updated, moves to key 2, and another row is inserted at key 1. */
  const LOG: seq<Change> := [Update(1, TOUCH), Move(1, 2, TOUCH), Insert(1, OTHER_ROW)]
  const FINAL: Table := map[1 := OTHER_ROW, 2 := MINE_ROW]

  function Story(): (r: History)
  {
    HistoryOf({"a", "c"}, {"a", "c"}, SameA, BASE, LOG, [7, 8, 9])
  }

  lemma StoryTables()
    ensures Src(BASE, LOG, 0) == BASE
    ensures Src(BASE, LOG, 1) == BASE
    ensures Src(BASE, LOG, 2) == map[2 := MINE_ROW]
    ensures Src(BASE, LOG, 3) == FINAL
  {
    assert Patch(MINE_ROW, TOUCH) == MINE_ROW;
    assert Src(BASE, LOG, 1) == Apply(Src(BASE, LOG, 0), LOG[0]);
    assert Src(BASE, LOG, 2) == Apply(Src(BASE, LOG, 1), LOG[1]);
    assert Src(BASE, LOG, 3) == Apply(Src(BASE, LOG, 2), LOG[2]);
  }

  lemma StoryIsLegal()
    ensures LegalHistory(Story())
  {
    StoryTables();
    forall i | 0 <= i < |LOG| ensures LegalAt({"a", "c"}, BASE, LOG, i) {
      assert i == 0 || i == 1 || i == 2;
    }
    HistoryIsLegal({"a", "c"}, {"a", "c"}, SameA, BASE, LOG, [7, 8, 9]);
  }

  /** All three changes have committed, every key was copied after them, and those up to key 2 have
      landed; the stream has delivered nothing. */
  function Lagging(): (r: State)
  {
    State(3, (k: Key) => 3, 0, 0, 0, 0, EMPTY, map[], None,
          (k: Key) => if k <= 2 then Landed else Copied, FINAL)
  }

  /** All that the steps below need to know of the story. */
  ghost predicate Tells(h: History)
  {
    && h.log == LOG && h.xids == [7, 8, 9]
    && h.writable == {"a", "c"} && h.conflicts == SameA
    && forall k :: At(h, 3, k) == RowAt(FINAL, k)
  }

  lemma StoryTells()
    ensures Tells(Story())
  {
    StoryTables();
  }

  lemma ReachCopied(h: History) returns (run: seq<State>)
    requires Tells(h)
    ensures Linked(h, run)
    ensures run[|run| - 1] == Lagging().(phase := (k: Key) => Copied)
  {
    var end := Lagging();
    var s0 := State(0, (k: Key) => 0, 0, 0, 0, 0, EMPTY, map[], None, (k: Key) => Uncut, map[]);
    var s1, s2, s3 := s0.(now := 1), s0.(now := 2), s0.(now := 3);
    var s4 := s3.(seen := end.seen);
    var s5 := s4.(phase := (k: Key) => Claimed(3));
    var s6 := s5.(phase := (k: Key) => Copied, shadow := FINAL);
    run := [s0];
    Extend(h, run, s1);
    run := run + [s1];
    Extend(h, run, s2);
    run := run + [s2];
    Extend(h, run, s3);
    run := run + [s3];
    Extend(h, run, s4);
    run := run + [s4];
    Extend(h, run, s5);
    run := run + [s5];
    CopyStep(h, s5, s6);
    Extend(h, run, s6);
    run := run + [s6];
    assert s6 == end.(phase := (k: Key) => Copied);
  }

  lemma CopyStep(h: History, s: State, s': State)
    requires Tells(h) && s.now == 3 && (forall k :: s.phase(k) == Claimed(3) && s.seen(k) == 3)
    requires s.shadow == map[] && s' == s.(phase := s'.phase, shadow := FINAL)
    requires forall k :: s'.phase(k) == Copied
    ensures Copies(h, s, s') && Next(h, s, s')
  {
    CopyAll(h, s, s');
  }

  lemma CopyAll(h: History, s: State, s': State)
    requires Tells(h) && s.now == 3 && (forall k :: s.phase(k) == Claimed(3) && s.seen(k) == 3)
    requires s.shadow == map[] && s' == s.(phase := s'.phase, shadow := FINAL)
    requires forall k :: s'.phase(k) == Copied
    ensures Copies(h, s, s')
  {
    assert Project(MINE_ROW, h.writable) == MINE_ROW && Project(OTHER_ROW, h.writable) == OTHER_ROW;
    forall k ensures CopiedKey(h, s, s', k) {
      assert RowAt(s'.shadow, k) == Shown(At(h, 3, k), h.writable);
    }
    assert Consistent(h.conflicts, FINAL);
  }

  const FIRST: Entry := Image(None, false, false, TOUCH, 0, 7)
  const FILLED: Columns := map["a" := Has(X), "c" := Has(OTHER)]

  function Drained(s: State, keys: set<Key>): (r: State)
  {
    s.(batch := Some(Batch(keys, s.seen)))
  }

  function Delivered1(): (r: State)
  {
    Lagging().(delivered := 1, buf := Buf(map[1 := FIRST], map[]), notes := map[1 := Note(0, {})])
  }

  /** The update is drained and refused: the row it belongs to already stands, moved, at key 2 with
      the same unique value. It goes back with column `c` taken from the row now at key 1. */
  function Requeued(): (r: State)
  {
    Delivered1().(buf := Buf(map[1 := FIRST.(columns := FILLED)], map[]), notes := map[1 := Note(0, {"c"})])
  }

  lemma DeliverUpdate(h: History, phase: Key -> Phase)
    requires Tells(h)
    ensures Next(h, Lagging().(phase := phase), Delivered1().(phase := phase))
  {
  }

  lemma DrainStep(h: History, s: State, keys: set<Key>)
    requires Tells(h) && s.batch.None? && s.delivered <= 3 && (forall k :: s.seen(k) == 3)
    requires s.buf.pending == map[] && s.notes.Keys == s.buf.entries.Keys
    requires forall k :: k in keys ==> k in s.buf.entries && s.phase(k) == Landed
    ensures Next(h, s, Drained(s, keys))
  {
    var visible: nat -> bool := (x: nat) => true;
    assert SoundSnapshot(h, s, visible) && DrainChoice(s, Drained(s, keys), visible);
  }

  /** What the flush of the update would leave. */
  function Clashing(phase: Key -> Phase): (r: State)
  {
    Lagging().(delivered := 1, phase := phase, shadow := map[1 := map["a" := X, "c" := OTHER], 2 := MINE_ROW])
  }

  /** Writing the update would put the unique value of the row at key 2 under key 1 as well. */
  lemma Refused(h: History, phase: Key -> Phase)
    requires Tells(h)
    ensures exists w :: Writes(h, Drained(Delivered1().(phase := phase), {1}), w) && !Consistent(h.conflicts, w.shadow)
  {
    var s, w := Drained(Delivered1().(phase := phase), {1}), Clashing(phase);
    var read: Key -> nat := (k: Key) => 3;
    forall k ensures FlushKey(h, s, w, k, At(h, read(k), k)) {
    }
    assert FlushReads(h, s, w, read);
    assert Writes(h, s, w);
    assert SameA(w.shadow[1], w.shadow[2]);
  }

  lemma FilledInPlace()
    ensures Refilled({"a", "c"}, FINAL, 1, FIRST) == FIRST.(columns := FILLED)
    ensures FilledNames({"a", "c"}, FINAL, 1, FIRST) == {"c"}
  {
    assert Missing({"a", "c"}, TOUCH) == {"c"};
    assert HasMarker(TOUCH) by { assert TOUCH["c"].Marker?; }
    assert Read(OTHER_ROW, {"c"}) == map["c" := Has(OTHER)];
    assert Overlay(TOUCH, map["c" := Has(OTHER)]) == FILLED;
  }

  lemma Requeue(h: History)
    requires Tells(h)
    ensures Next(h, Drained(Delivered1(), {1}), Requeued())
  {
    Refused(h, Delivered1().phase);
    assert Delivered1().(phase := Delivered1().phase) == Delivered1();
    FilledInPlace();
    assert Requeues(h, Drained(Delivered1(), {1}), Requeued());
  }

  const MOVED: Entry := Image(Some(1), false, false, FILLED, 0, 8)
  const INSERTED: Entry := Image(None, false, false, map["a" := Has(Y), "c" := Has(OTHER)], 0, 9)

  function Delivered2(): (r: State)
  {
    Requeued().(delivered := 2, buf := Buf(map[2 := MOVED, 1 := DeleteMarker(0, 8)], map[]),
                notes := map[2 := Note(1, {}), 1 := Note(0, {})])
  }

  function Delivered3(): (r: State)
  {
    Delivered2().(delivered := 3,
                  buf := Buf(map[2 := MOVED.(oldKeyReused := true), 1 := INSERTED], map[]),
                  notes := map[2 := Note(1, {}), 1 := Note(0, {})])
  }

  function AllLanded(): (r: State)
  {
    Delivered3().(phase := (k: Key) => Landed)
  }

  /** The moved row is written with the other row's value. */
  function Diverged(): (r: State)
  {
    AllLanded().(buf := EMPTY, notes := map[],
                 shadow := map[1 := OTHER_ROW, 2 := map["a" := X, "c" := OTHER]])
  }

  lemma MoveAdded()
    ensures Add(Requeued().buf, ChangeEvent(UpdateKind, 2, Some(1), TOUCH, 0, 8)) == Some(Delivered2().buf)
  {
    var b, ev := Requeued().buf, ChangeEvent(UpdateKind, 2, Some(1), TOUCH, 0, 8);
    assert Overlay(FILLED, TOUCH) == FILLED;
    assert MovedImage(ev, 1, None, Some(FIRST.(columns := FILLED))) == MOVED;
    assert MarkReused(b, 2, Some(1)) == b;
    assert Put(Put(b, 2, MOVED), 1, DeleteMarker(0, 8)) == Delivered2().buf;
  }

  lemma DeliverMove(h: History)
    requires Tells(h)
    ensures Delivers(h, Requeued(), Delivered2())
  {
    MoveAdded();
    assert NextEvent(h, Requeued()) == ChangeEvent(UpdateKind, 2, Some(1), TOUCH, 0, 8);
    assert NotesAfter(Requeued(), LOG[1]) == Delivered2().notes;
  }

  lemma InsertAdded()
    ensures Add(Delivered2().buf, ChangeEvent(InsertKind, 1, None, INSERTED.columns, 0, 9)) ==
            Some(Delivered3().buf)
  {
    var b := Delivered2().buf;
    assert MarkReused(b, 1, None) ==
           Buf(map[2 := MOVED.(oldKeyReused := true), 1 := DeleteMarker(0, 8)], map[]);
    assert Put(MarkReused(b, 1, None), 1, INSERTED) == Delivered3().buf;
  }

  lemma DeliverInsert(h: History)
    requires Tells(h)
    ensures Delivers(h, Delivered2(), Delivered3())
  {
    InsertAdded();
    assert Carry(OTHER_ROW) == INSERTED.columns;
    assert NextEvent(h, Delivered2()) == ChangeEvent(InsertKind, 1, None, INSERTED.columns, 0, 9);
    assert NotesAfter(Delivered2(), LOG[2]) == Delivered3().notes;
  }

  lemma LandRest(h: History)
    requires Tells(h)
    ensures Next(h, Delivered3(), AllLanded())
  {
  }

  lemma DivergedIsConsistent()
    ensures Consistent(SameA, Diverged().shadow)
  {
  }

  lemma FlushLast(h: History)
    requires Tells(h)
    ensures Next(h, Drained(AllLanded(), {1, 2}), Diverged())
  {
    var s := Drained(AllLanded(), {1, 2});
    var read: Key -> nat := (k: Key) => 3;
    forall k ensures FlushKey(h, s, Diverged(), k, At(h, read(k), k)) {
      FlushLastKey(h, k);
    }
    assert FlushReads(h, s, Diverged(), read);
    DivergedIsConsistent();
    assert Flushes(h, s, Diverged());
  }

  lemma LastWrites(source: Option<Row>)
    ensures FateOf({"a", "c"}, FINAL, source, 1, INSERTED) == WriteImage
    ensures FateOf({"a", "c"}, FINAL, source, 2, MOVED.(oldKeyReused := true)) == WriteImage
    ensures WrittenRow({"a", "c"}, FINAL, 1, INSERTED.columns) == OTHER_ROW
    ensures WrittenRow({"a", "c"}, FINAL, 2, FILLED) == map["a" := X, "c" := OTHER]
  {
    assert !HasMarker(FILLED) && Missing({"a", "c"}, INSERTED.columns) == {};
  }

  lemma FlushLastKey(h: History, k: Key)
    requires Tells(h)
    ensures FlushKey(h, Drained(AllLanded(), {1, 2}), Diverged(), k, At(h, 3, k))
  {
    LastWrites(At(h, 3, k));
  }

  lemma ReachRequeued(h: History, run: seq<State>) returns (longer: seq<State>)
    requires Tells(h) && Linked(h, run) && run[|run| - 1] == Lagging()
    ensures Linked(h, longer) && longer[|longer| - 1] == Requeued()
  {
    DeliverUpdate(h, Lagging().phase);
    assert Lagging().(phase := Lagging().phase) == Lagging() && Delivered1().(phase := Lagging().phase) == Delivered1();
    Extend(h, run, Delivered1());
    longer := run + [Delivered1()];
    DrainStep(h, Delivered1(), {1});
    Extend(h, longer, Drained(Delivered1(), {1}));
    longer := longer + [Drained(Delivered1(), {1})];
    Requeue(h);
    Extend(h, longer, Requeued());
    longer := longer + [Requeued()];
  }

  lemma ReachLanded(h: History, run: seq<State>) returns (longer: seq<State>)
    requires Tells(h) && Linked(h, run) && run[|run| - 1] == Requeued()
    ensures Linked(h, longer) && longer[|longer| - 1] == AllLanded()
  {
    DeliverMove(h);
    Extend(h, run, Delivered2());
    longer := run + [Delivered2()];
    DeliverInsert(h);
    Extend(h, longer, Delivered3());
    longer := longer + [Delivered3()];
    LandRest(h);
    Extend(h, longer, AllLanded());
    longer := longer + [AllLanded()];
  }

  lemma ReachDiverged(h: History, run: seq<State>) returns (longer: seq<State>)
    requires Tells(h) && Linked(h, run) && run[|run| - 1] == AllLanded()
    ensures Linked(h, longer) && longer[|longer| - 1] == Diverged()
  {
    DrainStep(h, AllLanded(), {1, 2});
    Extend(h, run, Drained(AllLanded(), {1, 2}));
    longer := run + [Drained(AllLanded(), {1, 2})];
    FlushLast(h);
    Extend(h, longer, Diverged());
    longer := longer + [Diverged()];
  }

  /** A run of the protocol as coded, over a history the source can commit, that ends with every key
      landed, every change delivered and nothing buffered, and a shadow row that is not the source's. */
  lemma Diverges() returns (h: History, run: seq<State>)
    ensures LegalHistory(h) && Linked(h, run)
    ensures var s := run[|run| - 1];
            && s.buf.entries == map[] && s.delivered == s.now == |h.log|
            && (forall k :: s.phase(k).Landed?)
            && RowAt(s.shadow, 2) != Shown(At(h, s.now, 2), h.writable)
  {
    StoryIsLegal();
    StoryTells();
    h := Story();
    run := ReachCopied(h);
    assert Lands(run[|run| - 1], Lagging());
    Extend(h, run, Lagging());
    run := ReachRequeued(h, run + [Lagging()]);
    run := ReachLanded(h, run);
    run := ReachDiverged(h, run);
    assert At(h, 3, 2) == Some(MINE_ROW);
    assert Project(MINE_ROW, h.writable)["c"] == MINE;
  }

  // ------------------------------------------------------- a refusal that is not final

  /** The source's rows keep apart from each other after `n` changes. */
  ghost predicate SourceConsistent(h: History, n: nat)
  {
    forall j, k :: j != k && At(h, n, j).Some? && At(h, n, k).Some? ==>
      !h.conflicts(Project(At(h, n, j).value, h.writable), Project(At(h, n, k).value, h.writable))
  }

  /** What a flush leaves under a landed key with no change outstanding is the source's row. */
  lemma SettledKeyIsSource(h: History, run: seq<State>, i: nat, w: State, k: Key)
    requires LegalHistory(h) && Run(h, run) && i < |run| && Writes(h, run[i], w) && run[i].phase(k).Landed?
    ensures First(w, k) <= run[i].now <= |h.log|
    ensures Quiet(h, k, First(w, k), run[i].now) ==> RowAt(w.shadow, k) == Shown(At(h, run[i].now, k), h.writable)
  {
    var s := run[i];
    RunHolds(h, run, i);
    var read: Key -> nat :| FlushReads(h, s, w, read);
    FlushKeepsKey(h, s, w, read, k);
    assert FlushKey(h, s, w, k, At(h, read(k), k));
    FirstInRange(h, s, k);
    TracksReplays(h, RowAt(w.shadow, k), k, First(w, k), s.now);
    if Quiet(h, k, First(w, k), s.now) {
      QuietReplay(h, RowAt(w.shadow, k), k, First(w, k), s.now);
    }
  }

  lemma {:induction false} QuietReplay(h: History, row: Option<Row>, k: Key, x: nat, n: nat)
    requires x <= n <= |h.log| && Quiet(h, k, x, n)
    ensures Replay(h, row, k, x, n) == row
  {
    if x < n {
      QuietReplay(h, row, k, x, n - 1);
    }
  }

  /** The key has a change that is neither in the shadow nor waived. */
  ghost predicate Outstanding(h: History, w: State, n: nat, k: Key)
  {
    !Quiet(h, k, First(w, k), n)
  }

  lemma ConflictIsOutstanding(h: History, run: seq<State>, i: nat, w: State, j: Key, k: Key)
    requires LegalHistory(h) && Run(h, run) && i < |run| && Writes(h, run[i], w)
    requires run[i].phase(j).Landed? && run[i].phase(k).Landed? && SourceConsistent(h, run[i].now)
    requires j in w.shadow && k in w.shadow && j != k && h.conflicts(w.shadow[j], w.shadow[k])
    ensures Outstanding(h, w, run[i].now, j) || Outstanding(h, w, run[i].now, k)
  {
    SettledKeyIsSource(h, run, i, w, j);
    SettledKeyIsSource(h, run, i, w, k);
    assert RowAt(w.shadow, j) == Some(w.shadow[j]) && RowAt(w.shadow, k) == Some(w.shadow[k]);
  }

  /** A flush leaves rows at the source's kind of keys only. */
  lemma WritesInside(h: History, run: seq<State>, i: nat, w: State, k: Key)
    requires LegalHistory(h) && Keyed(h) && Run(h, run) && i < |run| && Writes(h, run[i], w) && k in w.shadow
    ensures MIN_KEY <= k <= MAX_KEY
  {
    RunHolds(h, run, i);
    var read: Key -> nat :| FlushReads(h, run[i], w, read);
    assert FlushKey(h, run[i], w, k, At(h, read(k), k));
    if !(MIN_KEY <= k <= MAX_KEY) {
      OutsideIsEmpty(h, run[i], k);
    }
  }

  /** With every key landed and a source that breaks no constraint, a flush is refused only over a pair of
      rows one of which has a change outstanding: buffered, or committed and not delivered. */
  lemma RefusalIsOutstanding(h: History, run: seq<State>, i: nat, w: State)
    requires LegalHistory(h) && Run(h, run) && i < |run|
    requires Writes(h, run[i], w) && !Consistent(h.conflicts, w.shadow)
    requires Keyed(h) && (forall k: int64 :: run[i].phase(k).Landed?) && SourceConsistent(h, run[i].now)
    ensures exists j, k :: j in w.shadow && k in w.shadow && j != k && h.conflicts(w.shadow[j], w.shadow[k]) &&
                           (Outstanding(h, w, run[i].now, j) || Outstanding(h, w, run[i].now, k))
  {
    var j, k :| j in w.shadow && k in w.shadow && j != k && h.conflicts(w.shadow[j], w.shadow[k]);
    WritesInside(h, run, i, w, j);
    WritesInside(h, run, i, w, k);
    ConflictIsOutstanding(h, run, i, w, j, k);
  }

  /** So with every change delivered and nothing buffered but what the flush writes, it is not refused. */
  lemma CaughtUpIsNeverRefused(h: History, run: seq<State>, i: nat, w: State)
    requires LegalHistory(h) && Run(h, run) && i < |run|
    requires Writes(h, run[i], w) && w.buf.entries == map[]
    requires run[i].delivered == run[i].now && Keyed(h) && (forall k: int64 :: run[i].phase(k).Landed?)
    requires SourceConsistent(h, run[i].now)
    ensures Consistent(h.conflicts, w.shadow)
  {
    RunHolds(h, run, i);
    var read: Key -> nat :| FlushReads(h, run[i], w, read);
    forall k ensures !Outstanding(h, w, run[i].now, k) {
      assert FlushKey(h, run[i], w, k, At(h, read(k), k));
    }
    if !Consistent(h.conflicts, w.shadow) {
      RefusalIsOutstanding(h, run, i, w);
    }
  }

  lemma StoryIsConsistent(h: History)
    requires Tells(h)
    ensures SourceConsistent(h, 3)
  {
  }

  lemma ReachAlarm(h: History, run: seq<State>, landed: Key -> Phase) returns (longer: seq<State>)
    requires Tells(h) && Linked(h, run) && run[|run| - 1] == Lagging().(phase := landed)
    requires forall k :: landed(k) == Landed
    ensures Linked(h, longer) && longer[|longer| - 1] == Drained(Delivered1().(phase := landed), {1})
  {
    var s := Delivered1().(phase := landed);
    DeliverUpdate(h, landed);
    Extend(h, run, s);
    DrainStep(h, s, {1});
    Extend(h, run + [s], Drained(s, {1}));
    longer := run + [s] + [Drained(s, {1})];
  }

  /** Landing every key is not enough: a copy that read ahead of the stream makes a flush refuse a batch
      although every key has landed, the source breaks no constraint, and the changes that resolve the
      refusal are still to be delivered. */
  lemma LandedIsNotCaughtUp() returns (h: History, run: seq<State>)
    ensures LegalHistory(h) && Linked(h, run)
    ensures var s := run[|run| - 1];
            && (forall k :: s.phase(k).Landed?) && s.batch.Some?
            && s.delivered < s.now == |h.log| && SourceConsistent(h, s.now)
            && exists w :: Writes(h, s, w) && !Consistent(h.conflicts, w.shadow)
  {
    StoryIsLegal();
    StoryTells();
    h := Story();
    var landed := (k: Key) => Landed;
    run := ReachCopied(h);
    var ready := Lagging().(phase := landed);
    assert Lands(run[|run| - 1], ready);
    Extend(h, run, ready);
    run := ReachAlarm(h, run + [ready], landed);
    Refused(h, landed);
    StoryIsConsistent(h);
  }
}
