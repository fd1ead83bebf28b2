/** The catch-up's drain, flush, requeue, hold and release keep the invariant. */
module CatchupSteps {
  import opened Options
  import opened Rows
  import opened Entries
  import opened Flushing
  import opened Protocol
  import opened Invariant
  import opened Steps

  // ------------------------------------------------------- release

  /** A completion that is let in is the value its marker stands for. */
  lemma ReleasedIsRight(h: History, s: State, k: Key, c: Name)
    requires LegalHistory(h) && Inv(h, s)
    requires k in s.buf.pending && s.buf.pending[k].readLSN <= s.position
    requires c in s.buf.pending[k].columns && Marked(s.buf.entries[k], c)
    ensures HadValue(h, k, c, s.buf.pending[k].columns[c].value, s.delivered)
  {
  }

  lemma ReleaseKeeps(h: History, s: State, s': State)
    requires LegalHistory(h) && Inv(h, s) && Releases(s, s')
    ensures Inv(h, s')
  {
    forall k ensures KeyInv(h, s', k) {
      assert KeyInv(h, s, k);
    }
    forall k | k in s'.buf.entries ensures EntryInv(h, s', k) {
      ReleaseKeepsEntry(h, s, s', k);
    }
  }

  lemma ReleaseKeepsEntry(h: History, s: State, s': State, k: Key)
    requires LegalHistory(h) && Inv(h, s) && Releases(s, s')
    requires k in s.buf.entries
    ensures EntryInv(h, s', k)
  {
    assert EntryInv(h, s, k);
    var e, e' := s.buf.entries[k], s'.buf.entries[k];
    OriginKept(h, s, s', k, e, e');
    ReleaseKeepsTruth(h, s, s', k);
    var i :| 0 <= i < s.delivered && i < |h.log| && StampedBy(h, s.delivered, k, e, i);
    assert StampedBy(h, s.delivered, k, e', i);
    if e.Image? && e.absenceAwaited {
      // the reset the image waits for lies below its own read position, and is still undelivered
      assert s.buf.pending[k].readLSN > s.position;
    }
  }

  lemma ReleaseKeepsTruth(h: History, s: State, s': State, k: Key)
    requires LegalHistory(h) && Inv(h, s) && Releases(s, s')
    requires k in s.buf.entries
    ensures Truthful(h, s.delivered, k, s'.buf.entries[k], s.notes[k].first, s.notes[k].filled)
  {
    assert EntryInv(h, s, k);
    var e, e' := s.buf.entries[k], s'.buf.entries[k];
    if e' != e {
      forall c | Unsaid(e', s.notes[k].filled, c) ensures Unsaid(e, s.notes[k].filled, c) {
      }
      forall c | c in e'.columns && e'.columns[c].Has? && c !in s.notes[k].filled
        ensures HadValue(h, k, c, e'.columns[c].value, s.delivered)
      {
        if Marked(e, c) {
          ReleasedIsRight(h, s, k, c);
        }
      }
    }
  }

  // ------------------------------------------------------- drain

  lemma VisibleIsSeen(h: History, s: State, k: Key, visible: nat -> bool)
    requires LegalHistory(h) && Inv(h, s) && k in s.buf.entries
    requires SoundSnapshot(h, s, visible) && visible(s.buf.entries[k].xid)
    ensures Quiet(h, k, s.seen(k), s.delivered)
  {
  }

  lemma DrainKeeps(h: History, s: State, s': State)
    requires LegalHistory(h) && Inv(h, s) && Drains(h, s, s')
    ensures Inv(h, s')
  {
    var visible: nat -> bool :| SoundSnapshot(h, s, visible) && DrainChoice(s, s', visible);
    forall k ensures KeyInv(h, s', k) {
      assert KeyInv(h, s, k);
      if k in s.buf.entries && k !in s'.buf.entries {
        VisibleIsSeen(h, s, k, visible);
      }
    }
    forall k | k in s'.buf.pending ensures k in s'.buf.entries {
      assert k in s.buf.entries;
    }
    forall k | k in s'.buf.entries ensures EntryInv(h, s', k) {
      DrainKeepsEntry(h, s, s', visible, k);
    }
    forall k | k in s'.batch.value.keys ensures Quiet(h, k, s'.batch.value.since(k), s'.delivered) {
      VisibleIsSeen(h, s, k, visible);
    }
  }

  lemma DrainKeepsEntry(h: History, s: State, s': State, visible: nat -> bool, k: Key)
    requires LegalHistory(h) && Inv(h, s) && Drains(h, s, s') && DrainChoice(s, s', visible)
    requires k in s'.buf.entries
    ensures EntryInv(h, s', k)
  {
    assert EntryInv(h, s, k);
    OriginKept(h, s, s', k, s.buf.entries[k], s.buf.entries[k]);
  }

  // ------------------------------------------------------- a deferred batch

  lemma DeferKeeps(h: History, s: State, s': State)
    requires LegalHistory(h) && Inv(h, s) && Requeues(h, s, s')
    ensures Inv(h, s')
  {
    forall k ensures KeyInv(h, s', k) {
      assert KeyInv(h, s, k);
      if k in s.notes {
        assert s'.notes[k].first == s.notes[k].first;
      }
    }
    forall k | k in s'.buf.entries ensures EntryInv(h, s', k) {
      DeferKeepsEntry(h, s, s', k);
    }
  }

  /** Filling a marker in place from the image's own shadow row says nothing new about the column. */
  lemma TruthfulRefill(h: History, d: nat, shadow: Table, k: Key, e: Entry, first: nat, filled: set<Name>)
    requires LegalHistory(h) && d <= |h.log| && Truthful(h, d, k, e, first, filled)
    ensures Truthful(h, d, k, Refilled(h.writable, shadow, k, e), first,
                     filled + FilledNames(h.writable, shadow, k, e))
  {
    var e', names := Refilled(h.writable, shadow, k, e), FilledNames(h.writable, shadow, k, e);
    if e.Image? {
      assert e'.columns.Keys == h.decoded;
      forall c | Unsaid(e', filled + names, c) ensures Unsaid(e, filled, c) {
        if c in names {
          assert c in Missing(h.writable, e.columns);
        }
      }
    }
  }

  lemma DeferKeepsEntry(h: History, s: State, s': State, k: Key)
    requires LegalHistory(h) && Inv(h, s) && Requeues(h, s, s') && k in s.buf.entries
    ensures EntryInv(h, s', k)
  {
    assert EntryInv(h, s, k);
    var e, e' := s.buf.entries[k], s'.buf.entries[k];
    if k in s.batch.value.keys {
      TruthfulRefill(h, s.delivered, s.shadow, k, e, s.notes[k].first, s.notes[k].filled);
    }
    assert OriginOK(h, s', k, e') by { OriginKept(h, s, s', k, e, e'); }
    assert Stamped(h, s.delivered, k, e') by {
      var i :| 0 <= i < s.delivered && i < |h.log| && StampedBy(h, s.delivered, k, e, i);
      assert StampedBy(h, s.delivered, k, e', i);
    }
    DeferKeepsFilled(h, s, s', k);
  }

  lemma DeferKeepsFilled(h: History, s: State, s': State, k: Key)
    requires LegalHistory(h) && Inv(h, s) && Requeues(h, s, s') && k in s.buf.entries
    ensures FilledFromShadow(s', k, s'.buf.entries[k])
  {
  }

  // ------------------------------------------------------- flush

  /** What a written image leaves in a column: the value the stream brought, or the row's own. */
  lemma WrittenColumn(h: History, s: State, k: Key, c: Name)
    requires LegalHistory(h) && Inv(h, s)
    requires k in s.buf.entries && s.buf.entries[k].Image? && k in s.shadow && s.phase(k).Landed?
    requires s.buf.entries[k].oldKey.Some? ==> Missing(h.writable, s.buf.entries[k].columns) == {}
    requires c in h.writable
    ensures var row := Patch(s.shadow[k], s.buf.entries[k].columns);
            var x := s.notes[k].first;
            && c in row && c in s.shadow[k]
            && (|| HadValue(h, k, c, row[c], s.delivered)
                || (&& row[c] == s.shadow[k][c] && At(h, s.delivered, k).Some?
                    && !Reset(h, k, x, s.delivered) && !Patched(h, k, c, x, s.delivered)))
  {
    assert EntryInv(h, s, k);
    assert KeyInv(h, s, k);
    var e := s.buf.entries[k];
    if !(e.columns[c].Has? && c !in s.notes[k].filled) {
      assert c in Missing(h.writable, e.columns) || c in s.notes[k].filled;
      assert Unsaid(e, s.notes[k].filled, c);
    }
  }

  /** An unmoved image written over its shadow row keeps the row converging: the columns it carries
      are the source's, and nothing was said about the others since the entry began. */
  lemma PatchedRowTracks(h: History, s: State, k: Key)
    requires LegalHistory(h) && Inv(h, s)
    requires k in s.buf.entries && s.buf.entries[k].Image? && k in s.shadow && s.phase(k).Landed?
    requires s.buf.entries[k].oldKey.Some? ==> Missing(h.writable, s.buf.entries[k].columns) == {}
    ensures var row := Some(Patch(s.shadow[k], s.buf.entries[k].columns));
            Tracks(h, row, k, s.delivered, s.now) && Mixes(h, row, k, s.delivered, s.now)
  {
    assert EntryInv(h, s, k);
    assert KeyInv(h, s, k);
    var x, d, n := s.notes[k].first, s.delivered, s.now;
    var was, row := s.shadow[k], Patch(s.shadow[k], s.buf.entries[k].columns);
    forall c | c in h.writable ensures HadBetween(h, k, c, row[c], d, n) {
      WrittenColumn(h, s, k, c);
      if !HadValue(h, k, c, row[c], d) {
        var y :| x <= y <= n && HadValue(h, k, c, was[c], y);
        if y < d {
          UnsaidKeeps(h, k, c, x, y, d);
        }
      }
    }
    if !Reset(h, k, d, n) {
      PatchOnly(h, k, d, n);
      forall c | c in h.writable && !Patched(h, k, c, d, n)
        ensures HadValue(h, k, c, row[c], n)
      {
        WrittenColumn(h, s, k, c);
        if !HadValue(h, k, c, row[c], d) {
          NoResetJoin(h, k, c, x, d, n);
        }
      }
    }
  }

  lemma NoResetJoin(h: History, k: Key, c: Name, x: nat, d: nat, n: nat)
    requires x <= d <= n
    requires !Reset(h, k, x, d) && !Reset(h, k, d, n)
    requires !Patched(h, k, c, x, d) && !Patched(h, k, c, d, n)
    ensures !Reset(h, k, x, n) && !Patched(h, k, c, x, n)
  {
  }

  /** A row that is the source's own at the last delivered change converges. */
  lemma TruthTracks(h: History, k: Key, d: nat, n: nat)
    requires LegalHistory(h) && d <= n <= |h.log|
    ensures Tracks(h, Shown(At(h, d, k), h.writable), k, d, n)
    ensures Mixes(h, Shown(At(h, d, k), h.writable), k, d, n)
  {
    CopiedRowTracks(h, k, d, d, n);
  }

  /** An image written where the shadow holds no row is the source's whole row. */
  lemma WholeImageIsTruth(h: History, s: State, k: Key)
    requires LegalHistory(h) && Inv(h, s)
    requires k in s.buf.entries && s.buf.entries[k].Image? && k !in s.shadow
    requires !CompletedFirst(s.buf.entries[k]) && !ChecksShadowRow(h.writable, s.buf.entries[k])
    ensures Shown(At(h, s.delivered, k), h.writable) ==
            Some(WrittenRow(h.writable, s.shadow, k, s.buf.entries[k].columns))
  {
    assert EntryInv(h, s, k);
    AtShape(h, s.delivered, k);
    var e := s.buf.entries[k];
    var row := WrittenRow(h.writable, s.shadow, k, e.columns);
    forall c | c in h.writable ensures c in row && row[c] == At(h, s.delivered, k).value[c] {
      assert e.columns[c].Has? by {
        if e.oldKey.None? {
          assert c !in Missing(h.writable, e.columns);
        }
      }
      assert HadValue(h, k, c, e.columns[c].value, s.delivered);
    }
    assert Project(At(h, s.delivered, k).value, h.writable) == row;
  }

  /** What a flush writes under a landed key converges. */
  lemma WriteTracks(h: History, s: State, k: Key, read: nat)
    requires LegalHistory(h) && Inv(h, s)
    requires k in s.buf.entries && s.phase(k).Landed? && k !in s.buf.pending
    requires read <= s.now && Quiet(h, k, read, s.delivered)
    ensures var e := s.buf.entries[k];
            match FateOf(h.writable, s.shadow, At(h, read, k), k, e)
            case WriteDelete => Tracks(h, None, k, s.delivered, s.now)
            case WriteImage =>
              var row := Some(WrittenRow(h.writable, s.shadow, k, e.columns));
              Tracks(h, row, k, s.delivered, s.now) && Mixes(h, row, k, s.delivered, s.now)
            case Refuse => false
            case _ => true
  {
    assert EntryInv(h, s, k);
    assert KeyInv(h, s, k);
    var e, d := s.buf.entries[k], s.delivered;
    if e.DeleteMarker? {
      TruthTracks(h, k, d, s.now);
    } else if CompletedFirst(e) {
      if At(h, read, k).None? {
        // the row the image shows is gone from the source: a change not yet delivered took it
        if !Reset(h, k, d, read) {
          if read < d {
            QuietKeeps(h, k, read, d);
          } else {
            PatchOnly(h, k, d, read);
          }
        }
        assert Reset(h, k, d, s.now);
      }
    } else if ChecksShadowRow(h.writable, e) && k !in s.shadow {
      assert !e.absenceAwaited;
    } else if k in s.shadow {
      PatchedRowTracks(h, s, k);
    } else {
      WholeImageIsTruth(h, s, k);
      TruthTracks(h, k, d, s.now);
    }
  }

  lemma FlushKeeps(h: History, s: State, s': State)
    requires LegalHistory(h) && Inv(h, s) && Flushes(h, s, s')
    ensures Inv(h, s')
  {
    var read: Key -> nat :| FlushReads(h, s, s', read);
    assert s'.notes.Keys == s'.buf.entries.Keys && s'.buf.pending.Keys <= s'.buf.entries.Keys by {
      forall k ensures (k in s'.notes <==> k in s'.buf.entries) &&
                       (k in s'.buf.pending ==> k in s'.buf.entries)
      {
        assert FlushKey(h, s, s', k, At(h, read(k), k));
      }
    }
    forall k ensures KeyInv(h, s', k) {
      FlushKeepsKey(h, s, s', read, k);
    }
    forall k | k in s'.buf.entries ensures EntryInv(h, s', k) {
      FlushKeepsEntry(h, s, s', read, k);
    }
  }

  lemma FlushKeepsKey(h: History, s: State, s': State, read: Key -> nat, k: Key)
    requires LegalHistory(h) && Inv(h, s) && Writes(h, s, s') && FlushReads(h, s, s', read)
    ensures KeyInv(h, s', k)
  {
    assert KeyInv(h, s, k);
    assert FlushKey(h, s, s', k, At(h, read(k), k));
    if k in s.batch.value.keys {
      assert Quiet(h, k, read(k), s.delivered);
      WriteTracks(h, s, k, read(k));
    }
  }

  /** Only the flush of a moved image's origin changes the origin's shadow row, and only to delete it. */
  lemma OriginWrites(h: History, s: State, s': State, read: Key -> nat, k: Key, o: Key)
    requires LegalHistory(h) && Inv(h, s) && Writes(h, s, s') && FlushReads(h, s, s', read)
    requires k in s.buf.entries && k in s'.buf.entries
    requires LeftKey(s.buf.entries[k], o) && !s.buf.entries[k].oldKeyReused
    ensures o in s'.shadow ==> o in s.shadow && s'.shadow[o] == s.shadow[o]
    ensures o in s'.notes ==> o in s.notes && s'.notes[o] == s.notes[o]
  {
    assert EntryInv(h, s, k);
    assert FlushKey(h, s, s', o, At(h, read(o), o));
    if o != k && o in s.batch.value.keys {
      assert EntryInv(h, s, o);
    }
  }

  lemma FlushKeepsEntry(h: History, s: State, s': State, read: Key -> nat, k: Key)
    requires LegalHistory(h) && Inv(h, s) && Writes(h, s, s') && FlushReads(h, s, s', read)
    requires k in s'.buf.entries && k in s'.notes
    ensures EntryInv(h, s', k)
  {
    assert FlushKey(h, s, s', k, At(h, read(k), k));
    assert EntryInv(h, s, k);
    var e, e' := s.buf.entries[k], s'.buf.entries[k];
    assert e' == e || (e.Image? && e' == e.(absenceAwaited := true));
    assert Stamped(h, s'.delivered, k, e') by {
      var i :| 0 <= i < s.delivered && i < |h.log| && StampedBy(h, s.delivered, k, e, i);
      assert StampedBy(h, s.delivered, k, e', i);
    }
    assert OriginOK(h, s', k, e') by {
      forall o | LeftKey(e, o) && !e.oldKeyReused
        ensures o in s'.shadow ==> o in s.shadow && s'.shadow[o] == s.shadow[o]
        ensures o in s'.notes ==> o in s.notes && s'.notes[o].first == s.notes[o].first
      {
        OriginWrites(h, s, s', read, k, o);
      }
      OriginKept(h, s, s', k, e, e');
    }
    FlushKeepsPending(h, s, s', read, k);
    assert Truthful(h, s'.delivered, k, e', s'.notes[k].first, s'.notes[k].filled) by {
      if e.Image? {
        assert forall c :: Unsaid(e', s.notes[k].filled, c) ==> Unsaid(e, s.notes[k].filled, c);
      }
    }
  }

  lemma FlushKeepsPending(h: History, s: State, s': State, read: Key -> nat, k: Key)
    requires LegalHistory(h) && Inv(h, s) && Writes(h, s, s') && FlushReads(h, s, s', read)
    requires k in s'.buf.entries && k in s'.notes
    ensures k in s'.buf.pending ==> PendingOK(h, s', k, s'.buf.entries[k], s'.buf.pending[k])
    ensures AwaitOK(h, s', k, s'.buf.entries[k])
  {
    assert FlushKey(h, s, s', k, At(h, read(k), k));
    assert EntryInv(h, s, k);
    if k in s.batch.value.keys {
      HeldIsRight(h, s, k, read(k));
    }
  }

  /** What a flush holds for an image is the value the marker stands for, or one the stream is about
      to make moot; what it holds for an absent row waits for the change that explains the absence. */
  lemma HeldIsRight(h: History, s: State, k: Key, read: nat)
    requires LegalHistory(h) && Inv(h, s)
    requires k in s.buf.entries && s.phase(k).Landed? && k !in s.buf.pending
    requires read <= s.now && Quiet(h, k, read, s.delivered)
    ensures var e := s.buf.entries[k];
            match FateOf(h.writable, s.shadow, At(h, read, k), k, e)
            case Hold(completed) => PendingOK(h, s, k, e, Completion(completed, s.now))
            case Await => e.Image? && e.oldKey.None? && Reset(h, k, s.delivered, s.now)
            case _ => true
  {
    assert EntryInv(h, s, k);
    assert KeyInv(h, s, k);
    var e, d := s.buf.entries[k], s.delivered;
    match FateOf(h.writable, s.shadow, At(h, read, k), k, e)
    case Hold(completed) =>
      forall c | c in completed && Marked(e, c)
        ensures || HadValue(h, k, c, completed[c].value, d)
                || HadBetween(h, k, c, completed[c].value, d + 1, s.now)
                || (!e.oldKeyReused && HadBetween(h, e.oldKey.value, c, completed[c].value, d + 1, s.now))
      {
        if e.oldKeyReused || e.oldKey.value !in s.shadow {
          assert HadValue(h, k, c, completed[c].value, read);
          if read <= d {
            QuietKeeps(h, k, read, d);
          }
        }
      }
    case Await =>
      var c :| c in Missing(h.writable, e.columns);
      assert Unsaid(e, s.notes[k].filled, c);
      AbsenceExplained(h, k, s.notes[k].first, d, s.now);
    case _ =>
  }

  /** A live row the shadow lacks was taken away by a change the stream has not delivered. */
  lemma AbsenceExplained(h: History, k: Key, x: nat, d: nat, n: nat)
    requires LegalHistory(h) && x <= d <= n <= |h.log|
    requires At(h, d, k).Some? && !Reset(h, k, x, d) && Tracks(h, None, k, x, n)
    ensures Reset(h, k, d, n)
  {
    if !Reset(h, k, d, n) {
      assert !Reset(h, k, x, n);
      PatchOnly(h, k, d, n);
    }
  }
}
