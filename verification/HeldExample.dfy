/** A batch that is refused for good although every key has landed and every change has been delivered: a held image
    leaves the stale row at its key in another row's way (pkg/applier/catchup.go, flusher.go). */
module HeldExample {
  import opened Options
  import opened Rows
  import opened Entries
  import opened Coalescing
  import opened Flushing
  import opened Flusher
  import opened Catchup
  import opened ExampleRows

  /** Column `a` is unique; `c` is one an update may leave out. */
  const COLUMNS: set<Name> := {"a", "c"}

  const ROW_X: Row := map["a" := X, "c" := X]
  const ROW_Y: Row := map["a" := Y, "c" := Y]

  /** Row 2 is deleted, row 1 moves to its key without its `c`, and the value of `a` that is now free is inserted. */
  const START: Table := map[1 := ROW_X, 2 := ROW_Y]
  const MOVED: Columns := map["a" := Has(X), "c" := Marker]
  const LOG: seq<Change> := [Rows.Delete(2), Rows.Move(1, 2, MOVED), Rows.Insert(3, ROW_Y)]
  const END: Table := map[2 := ROW_X, 3 := ROW_Y]

  const MOVER: Entry := Image(Some(1), false, false, MOVED, 1, 0)
  const GONE: Entry := DeleteMarker(2, 0)
  const NEW: Entry := Image(None, false, false, Carry(ROW_Y), 3, 0)
  const ENTRIES: map<Key, Entry> := map[1 := GONE, 2 := MOVER, 3 := NEW]

  /** What is written while the moved image is held. */
  const PLAN: map<Key, Entry> := map[1 := GONE, 3 := NEW]
  const BLOCKED: Table := map[2 := ROW_Y, 3 := ROW_Y]

  function AtEnd(k: Key): (r: Option<Row>)
  {
    RowAt(END, k)
  }

  lemma EndsThere()
    ensures Src(START, LOG, 1) == map[1 := ROW_X] && Src(START, LOG, 2) == map[2 := ROW_X]
    ensures Src(START, LOG, 3) == END
  {
    assert Src(START, LOG, 0) == START;
    assert Src(START, LOG, 1) == START - {2} == map[1 := ROW_X];
    assert Patch(ROW_X, MOVED) == ROW_X;
    assert Src(START, LOG, 2) == (map[1 := ROW_X] - {1})[2 := ROW_X] == map[2 := ROW_X];
  }

  lemma IsLegal()
    ensures LegalLog(COLUMNS, START, LOG)
  {
    EndsThere();
    assert ROW_X.Keys == COLUMNS && ROW_Y.Keys == COLUMNS && MOVED.Keys == COLUMNS;
    assert Src(START, LOG, 0) == START;
    forall i | 0 <= i < |LOG| ensures LegalAt(COLUMNS, START, LOG, i) {
      assert i == 0 || i == 1 || i == 2;
    }
  }

  lemma Moves()
    ensures Add(Buf(map[2 := DeleteMarker(1, 0)], map[]), Decode(Rows.Move(1, 2, MOVED), 2, 0)) ==
            Some(Buf(map[1 := GONE, 2 := MOVER], map[]))
  {
    var b := Buf(map[2 := DeleteMarker(1, 0)], map[]);
    assert MarkReused(b, 2, None) == b;
    var ev := Decode(Rows.Move(1, 2, MOVED), 2, 0);
    assert MovedImage(ev, 1, Find(b, 2), Find(b, 1)) == MOVER;
    assert Put(Put(b, 2, MOVER), 1, GONE) == Buf(map[1 := GONE, 2 := MOVER], map[]);
  }

  lemma Inserts()
    ensures Add(Buf(map[1 := GONE, 2 := MOVER], map[]), Decode(Rows.Insert(3, ROW_Y), 3, 0)) ==
            Some(Buf(ENTRIES, map[]))
  {
    var b := Buf(map[1 := GONE, 2 := MOVER], map[]);
    assert MarkReused(b, 3, None) == b;
    assert Put(b, 3, NEW) == Buf(ENTRIES, map[]);
  }

  lemma Gathers()
    ensures Gather(LOG, [1, 2, 3], [0, 0, 0], 3) == Some(Buf(ENTRIES, map[]))
  {
    var at, xids := [1, 2, 3], [0, 0, 0];
    assert Gather(LOG, at, xids, 0) == Some(EMPTY);
    assert Gather(LOG, at, xids, 1) == Some(Buf(map[2 := DeleteMarker(1, 0)], map[]));
    Moves();
    assert Gather(LOG, at, xids, 2) == Some(Buf(map[1 := GONE, 2 := MOVER], map[]));
    Inserts();
  }

  lemma Planned()
    ensures Plan(COLUMNS, START, AtEnd, ENTRIES) == PLAN
    ensures !AnyRefused(COLUMNS, START, AtEnd, ENTRIES) && !AnyStray(START, PLAN)
  {
    assert MOVED["c"].Marker?;
    assert FateOf(COLUMNS, START, AtEnd(2), 2, MOVER).Hold?;
    assert Missing(COLUMNS, NEW.columns) == {};
    assert FateOf(COLUMNS, START, AtEnd(3), 3, NEW).WriteImage?;
  }

  lemma Leaves()
    ensures After(COLUMNS, START, PLAN) == BLOCKED && !Consistent(SameA, BLOCKED)
  {
    assert WrittenRow(COLUMNS, START, 3, NEW.columns) == ROW_Y;
    assert SameA(BLOCKED[2], BLOCKED[3]);
  }

  lemma Collides3()
    ensures Clashes(SameA, COLUMNS, START, PLAN, [1, 2, 3])
  {
    var t := AfterAllBut(COLUMNS, START, PLAN, Waiting(PLAN, [1, 2, 3], 2));
    assert 2 in t && t[2] == ROW_Y;
    assert WrittenRow(COLUMNS, START, 3, NEW.columns) == ROW_Y;
    assert SameA(ROW_Y, t[2]);
    assert Clash(SameA, COLUMNS, START, PLAN, [1, 2, 3], 2);
  }

  lemma NeverBreaks(n: nat)
    requires n <= |LOG|
    ensures Consistent(SameA, Src(START, LOG, n))
  {
    EndsThere();
    assert Src(START, LOG, 0) == START;
    assert n == 0 || n == 1 || n == 2 || n == 3;
    assert X != Y && !SameA(ROW_X, ROW_Y) && !SameA(ROW_Y, ROW_X);
  }

  lemma IsDeferred()
    ensures FlushDeferred(COLUMNS, SameA, START, AtEnd, ENTRIES, [1, 2, 3])
  {
    Planned();
    Leaves();
    Collides3();
  }

  /** A source that breaks no constraint at any point. */
  ghost predicate Fine(decoded: set<Name>, conflicts: (Row, Row) -> bool, base: Table, log: seq<Change>)
  {
    LegalLog(decoded, base, log) && forall n: nat :: n <= |log| ==> Consistent(conflicts, Src(base, log, n))
  }

  lemma IsFine()
    ensures Fine(COLUMNS, SameA, START, LOG)
  {
    IsLegal();
    forall n: nat | n <= |LOG| ensures Consistent(SameA, Src(START, LOG, n)) {
      NeverBreaks(n);
    }
  }

  lemma IsOrdered()
    ensures Orders([1, 2, 3], ENTRIES.Keys)
  {
  }

  /** The source breaks no constraint at any point, the shadow is the copied start, and the buffer holds everything
      that happened since; yet a flush of all of it is deferred, which with every key landed ends the catch-up. */
  lemma HeldRowBlocks() returns (decoded: set<Name>, base: Table, log: seq<Change>, at: seq<nat>, xids: seq<nat>,
                                 b: Buf, source: Key -> Option<Row>, order: seq<Key>)
    ensures Fine(decoded, SameA, base, log) && |at| == |xids| == |log|
    ensures Gather(log, at, xids, |log|) == Some(b) && b.pending == map[] && Orders(order, b.entries.Keys)
    ensures forall k :: source(k) == RowAt(Src(base, log, |log|), k)
    ensures FlushDeferred(decoded, SameA, base, source, b.entries, order)
  {
    IsFine();
    EndsThere();
    Gathers();
    IsOrdered();
    IsDeferred();
    decoded, base, log, at, xids := COLUMNS, START, LOG, [1, 2, 3], [0, 0, 0];
    b, source, order := Buf(ENTRIES, map[]), AtEnd, [1, 2, 3];
  }
}
