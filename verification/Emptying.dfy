/** Two cycles empty the buffer: what the first one holds the second one writes (pkg/applier/catchup.go, drain.go,
    hold.go). */
module Emptying {
  import opened Options
  import opened Rows
  import opened Entries
  import opened Flushing
  import opened Copying
  import opened Draining
  import opened Buffer
  import opened Flusher
  import opened Catchup

  /** Nothing has to wait: every buffered key has landed, its change is seen and no completion is pending. */
  ghost predicate NothingWaits(b: Buf, classify: Key -> KeyState, visible: nat -> bool)
  {
    && b.pending == map[]
    && forall k :: k in b.entries ==> Travels(b.entries, classify, visible, k)
  }

  lemma NoneBlocked(b: Buf, classify: Key -> KeyState, visible: nat -> bool, k: Key)
    requires NothingWaits(b, classify, visible)
    ensures !Blocked(b.entries, classify, visible, k)
  {
    assert forall j :: j in b.entries ==> Travels(b.entries, classify, visible, j);
  }

  lemma NoneHeldBack(b: Buf, classify: Key -> KeyState, visible: nat -> bool, k: Key)
    requires NothingWaits(b, classify, visible)
    ensures !HeldBack(b.entries, classify, visible, k)
  {
    forall path ensures !LeadsToBlocked(b.entries, classify, visible, path) {
      if |path| > 0 {
        NoneBlocked(b, classify, visible, path[|path| - 1]);
      }
    }
  }

  /** Then the drain hands over the whole buffer. */
  lemma DrainsAll(b: Buf, classify: Key -> KeyState, visible: nat -> bool, state: Judged, batch: map<Key, Entry>,
                  rest: Buf)
    requires NothingWaits(b, classify, visible) && DrainedBy(b, classify, visible, state, batch, rest)
    ensures batch == b.entries && rest == EMPTY
  {
    forall k | k in b.entries ensures k in batch {
      assert Travels(b.entries, classify, visible, k);
      NoneHeldBack(b, classify, visible, k);
      DrainExactly(b, classify, visible, state, k);
    }
  }

  /** Every image has a row to keep what it leaves out from, and leaves out only columns the shadow holds. */
  ghost predicate Fits(writable: set<Name>, shadow: Table, entries: map<Key, Entry>)
  {
    forall k :: k in entries ==> !Absent(writable, shadow, k, entries[k]) && OnShadow(writable, entries[k])
  }

  predicate OnShadow(writable: set<Name>, e: Entry)
  {
    e.Image? ==> forall c :: c in e.columns && e.columns[c].Marker? ==> c in writable
  }

  ghost predicate SourceRows(writable: set<Name>, source: Key -> Option<Row>)
  {
    forall k :: source(k).Some? ==> writable <= source(k).value.Keys
  }

  /** Every entry is an image that any flush writes, and that its fallback takes. */
  ghost predicate Ready(writable: set<Name>, entries: map<Key, Entry>)
  {
    forall k :: k in entries ==> ReadyAt(writable, k, entries[k])
  }

  ghost predicate ReadyAt(writable: set<Name>, k: Key, e: Entry)
  {
    && e.Image? && !HasMarker(e.columns)
    && forall later: Table, row: Option<Row> :: FateOf(writable, later, row, k, e).WriteImage?
  }

  /** What the first flush held is, once let in, ready for any later one. */
  lemma HeldIsReady(writable: set<Name>, shadow: Table, source: Key -> Option<Row>, now: nat,
                    batch: map<Key, Entry>, passed: nat, k: Key)
    requires Named(writable, shadow, batch) && Fits(writable, shadow, batch) && SourceRows(writable, source)
    requires now <= passed && k in Taken(writable, shadow, source, now, batch)
    ensures var held := Taken(writable, shadow, source, now, batch);
            var b := Release(Buf(Images(held), Completions(held)), passed);
            && k in b.entries && k !in b.pending && ReadyAt(writable, k, b.entries[k])
            && b.entries[k].xid == batch[k].xid
  {
    var held := Taken(writable, shadow, source, now, batch);
    assert !Absent(writable, shadow, k, batch[k]) && OnShadow(writable, batch[k]);
    assert k in MovedHeld(writable, shadow, source, now, batch);
    ReleasedIsWritten(writable, shadow, source, now, batch, k, Buf(Images(held), Completions(held)), passed);
  }

  lemma AllHeldAreReady(writable: set<Name>, shadow: Table, source: Key -> Option<Row>, now: nat,
                        batch: map<Key, Entry>, passed: nat)
    requires Named(writable, shadow, batch) && Fits(writable, shadow, batch) && SourceRows(writable, source)
    requires now <= passed
    ensures var held := Taken(writable, shadow, source, now, batch);
            var b := Release(Buf(Images(held), Completions(held)), passed);
            && b.pending == map[] && Ready(writable, b.entries)
            && forall k :: k in b.entries ==> k in batch && b.entries[k].xid == batch[k].xid
  {
    var held := Taken(writable, shadow, source, now, batch);
    var b := Release(Buf(Images(held), Completions(held)), passed);
    assert b.entries.Keys == held.Keys && b.pending.Keys <= held.Keys;
    forall k | k in held
      ensures k !in b.pending && ReadyAt(writable, k, b.entries[k]) && b.entries[k].xid == batch[k].xid
    {
      HeldIsReady(writable, shadow, source, now, batch, passed, k);
    }
  }

  /** One cycle's drain and flush, with the ghost results of `Cycler.Cycle`: what was split off, what the shadow and
      the source showed, how it ended and what it left. */
  datatype Turn = Turn(state: Judged, batch: map<Key, Entry>, rest: Buf, found: Table, source: Key -> Option<Row>,
                       now: nat, order: seq<Key>, r: Applied, shadow: Table, left: Buf)

  /** The cycle did what `Cycler.Cycle` ensures, with every key landed, over the buffer `b`. */
  ghost predicate Turns(writable: set<Name>, conflicts: (Row, Row) -> bool, b: Buf, classify: Key -> KeyState,
                        visible: nat -> bool, t: Turn)
  {
    && DrainedBy(b, classify, visible, t.state, t.batch, t.rest)
    && Ends(writable, conflicts, t.found, t.source, t.batch, t.order, true, t.r)
    && Settles(writable, conflicts, t.found, t.source, t.now, t.rest, t.batch, t.r, t.shadow, t.left)
  }

  /** A cycle in which nothing waits and whose flush commits leaves only images that are ready, once their
      completions are let in. */
  lemma FirstLeavesReady(writable: set<Name>, conflicts: (Row, Row) -> bool, b: Buf, classify: Key -> KeyState,
                         visible: nat -> bool, t: Turn, passed: nat)
    requires Named(writable, t.found, b.entries) && Fits(writable, t.found, b.entries)
    requires SourceRows(writable, t.source) && NothingWaits(b, classify, visible)
    requires Turns(writable, conflicts, b, classify, visible, t) && t.r.Wrote? && t.now <= passed
    ensures NothingWaits(Release(t.left, passed), classify, visible)
    ensures Ready(writable, Release(t.left, passed).entries)
  {
    DrainsAll(b, classify, visible, t.state, t.batch, t.rest);
    var held := Taken(writable, t.found, t.source, t.now, t.batch);
    AddNothing(held);
    AllHeldAreReady(writable, t.found, t.source, t.now, b.entries, passed);
    StillTravel(b, Release(t.left, passed), classify, visible);
  }

  lemma AddNothing(held: map<Key, HeldImage>)
    ensures Buf(EMPTY.entries + Images(held), EMPTY.pending + Completions(held)) == Buf(Images(held), Completions(held))
  {
  }

  lemma StillTravel(b: Buf, next: Buf, classify: Key -> KeyState, visible: nat -> bool)
    requires NothingWaits(b, classify, visible) && next.pending == map[]
    requires forall k :: k in next.entries ==> k in b.entries && next.entries[k].xid == b.entries[k].xid
    ensures NothingWaits(next, classify, visible)
  {
    forall k | k in next.entries ensures Travels(next.entries, classify, visible, k) {
      assert Travels(b.entries, classify, visible, k);
    }
  }

  lemma ReadyIsPlanned(writable: set<Name>, shadow: Table, source: Key -> Option<Row>, now: nat,
                       batch: map<Key, Entry>)
    requires Ready(writable, batch)
    ensures Taken(writable, shadow, source, now, batch) == map[] && !AnyRefused(writable, shadow, source, batch)
    ensures !AnyStray(shadow, Plan(writable, shadow, source, batch))
  {
    forall k | k in batch ensures FateOf(writable, shadow, source(k), k, batch[k]).WriteImage? {
      assert ReadyAt(writable, k, batch[k]);
    }
    assert forall k :: k in batch ==> ReadyAt(writable, k, batch[k]);
  }

  /** A cycle over ready entries, none of which waits, is never refused, and leaves nothing if it commits. */
  lemma ReadyIsWritten(writable: set<Name>, conflicts: (Row, Row) -> bool, b: Buf, classify: Key -> KeyState,
                       visible: nat -> bool, t: Turn)
    requires NothingWaits(b, classify, visible) && Ready(writable, b.entries)
    requires Turns(writable, conflicts, b, classify, visible, t)
    ensures t.r.Wrote? ==> t.left == EMPTY
    ensures !t.r.Wrote? ==>
              t.r.CannotConverge? &&
              !Consistent(conflicts, After(writable, t.found, Plan(writable, t.found, t.source, t.batch)))
  {
    DrainsAll(b, classify, visible, t.state, t.batch, t.rest);
    ReadyIsPlanned(writable, t.found, t.source, t.now, t.batch);
    AddNothing(map[]);
    assert Images(map[]) == map[] && Completions(map[]) == map[];
  }

  /** A first cycle in which nothing waits and whose flush commits leaves only the images it held. The next one, once
      their completions have been passed and with nothing delivered between, hands all of them over and is never
      refused: it empties the buffer, unless the rows it would leave in the shadow break a constraint. */
  lemma TwoCyclesEmpty(writable: set<Name>, conflicts: (Row, Row) -> bool, b: Buf, classify: Key -> KeyState,
                       visible: nat -> bool, first: Turn, passed: nat, next: Turn)
    requires Named(writable, first.found, b.entries) && Fits(writable, first.found, b.entries)
    requires SourceRows(writable, first.source) && NothingWaits(b, classify, visible)
    requires Turns(writable, conflicts, b, classify, visible, first) && first.r.Wrote? && first.now <= passed
    requires Turns(writable, conflicts, Release(first.left, passed), classify, visible, next)
    ensures next.r.Wrote? ==> next.left == EMPTY
    ensures !next.r.Wrote? ==>
              && next.r.CannotConverge?
              && var plan := Plan(writable, next.found, next.source, next.batch);
                 !Consistent(conflicts, After(writable, next.found, plan))
  {
    FirstLeavesReady(writable, conflicts, b, classify, visible, first, passed);
    ReadyIsWritten(writable, conflicts, Release(first.left, passed), classify, visible, next);
  }
}
