/** Every step of the protocol keeps the invariant. */
module Steps {
  import opened Options
  import opened Rows
  import opened Entries
  import opened Protocol
  import opened Invariant

  // ------------------------------------------------------- moving the ends of a replay

  lemma TracksGrows(h: History, row: Option<Row>, k: Key, x: nat, n: nat)
    requires LegalHistory(h) && x <= n < |h.log|
    requires Tracks(h, row, k, x, n)
    ensures Tracks(h, row, k, x, n + 1)
  {
    AtStep(h, n, k);
    if Reset(h, k, x, n) {
      assert Reset(h, k, x, n + 1);
    } else if Resets(h.log[n], k) {
      assert Reset(h, k, x, n + 1);
    } else if row.Some? {
      forall c | c in h.writable
        ensures Patched(h, k, c, x, n + 1) ||
                HadValue(h, k, c, if c in row.value then row.value[c] else Null, n + 1)
      {
        if Patched(h, k, c, x, n) {
          assert Patched(h, k, c, x, n + 1);
        } else if Patches(h.log[n], k, c) {
          assert Patched(h, k, c, x, n + 1);
        }
      }
    }
  }

  /** A change that does not touch the key may be left out of its replay. */
  lemma TracksSkips(h: History, row: Option<Row>, k: Key, x: nat, n: nat)
    requires LegalHistory(h) && x < n <= |h.log| && !Touches(h.log[x], k)
    requires Tracks(h, row, k, x, n) && Mixes(h, row, k, x, n)
    ensures Tracks(h, row, k, x + 1, n) && Mixes(h, row, k, x + 1, n)
  {
    AtStep(h, x, k);
    if Reset(h, k, x, n) {
      var i :| x <= i < n && i < |h.log| && Resets(h.log[i], k);
      assert Reset(h, k, x + 1, n);
    } else if row.Some? {
      forall c | c in h.writable && Patched(h, k, c, x, n) ensures Patched(h, k, c, x + 1, n) {
        var i :| x <= i < n && i < |h.log| && Patches(h.log[i], k, c);
      }
    }
    if row.Some? {
      forall c | c in h.writable ensures HadBetween(h, k, c, row.value[c], x + 1, n) {
        var y :| x <= y <= n && HadValue(h, k, c, row.value[c], y);
        if y == x {
          assert HadValue(h, k, c, row.value[c], x + 1);
        }
      }
    }
  }

  /** A column nothing was said about keeps its value. */
  lemma UnsaidKeeps(h: History, k: Key, c: Name, x: nat, y: nat, d: nat)
    requires LegalHistory(h) && x <= y <= d <= |h.log| && c in h.decoded
    requires !Reset(h, k, x, d) && !Patched(h, k, c, x, d)
    requires At(h, y, k).Some?
    ensures At(h, d, k).Some? && SameValue(h, c, y, k, d, k)
  {
    assert !Reset(h, k, y, d);
    assert !Patched(h, k, c, y, d);
    PatchOnly(h, k, y, d);
  }

  // ------------------------------------------------------- the source commits

  lemma CommitKeeps(h: History, s: State, s': State)
    requires LegalHistory(h) && Inv(h, s) && Commits(h, s, s')
    ensures Inv(h, s')
  {
    forall k ensures KeyInv(h, s', k) {
      assert KeyInv(h, s, k);
      if !s.phase(k).Uncut? && !s.phase(k).Claimed? {
        FirstInRange(h, s, k);
        TracksGrows(h, RowAt(s.shadow, k), k, First(s, k), s.now);
      }
    }
    forall k | k in s'.buf.entries ensures EntryInv(h, s', k) {
      assert EntryInv(h, s, k);
      OriginKept(h, s, s', k, s.buf.entries[k], s.buf.entries[k]);
    }
  }

  lemma FirstInRange(h: History, s: State, k: Key)
    requires |h.xids| == |h.log| && Inv(h, s)
    ensures First(s, k) <= s.delivered <= s.now
  {
  }

  /** An image's origin stays in order while its markers do not grow and the origin's row and entry
      are left alone or go away. */
  lemma OriginKept(h: History, s: State, s': State, k: Key, e: Entry, e': Entry)
    requires s.delivered == s'.delivered <= |h.log| && s.now <= s'.now
    requires e'.Image? ==> e.Image? && e'.oldKey == e.oldKey && e'.oldKeyReused == e.oldKeyReused
    requires forall c :: Marked(e', c) ==> Marked(e, c)
    requires OriginOK(h, s, k, e)
    requires forall o :: LeftKey(e, o) && !e.oldKeyReused ==>
               && (o in s'.shadow ==> o in s.shadow && s'.shadow[o] == s.shadow[o])
               && (o in s'.notes ==> o in s.notes && s'.notes[o].first == s.notes[o].first)
    ensures OriginOK(h, s', k, e')
  {
  }

  /** Steps that leave the buffer, the shadow and the counts of changes alone keep every entry's part. */
  lemma EntriesKept(h: History, s: State, s': State)
    requires |h.xids| == |h.log| && Inv(h, s)
    requires s'.buf == s.buf && s'.notes == s.notes && s'.shadow == s.shadow
    requires s'.now == s.now && s'.delivered == s.delivered && s'.resume == s.resume
    ensures forall k :: k in s'.buf.entries ==> EntryInv(h, s', k)
  {
  }

  lemma ShowKeeps(h: History, s: State, s': State)
    requires LegalHistory(h) && Inv(h, s) && Shows(s, s')
    ensures Inv(h, s')
  {
    forall k ensures KeyInv(h, s', k) {
      assert KeyInv(h, s, k);
    }
    EntriesKept(h, s, s');
  }

  lemma ProgressKeeps(h: History, s: State, s': State)
    requires LegalHistory(h) && Inv(h, s) && Progresses(s, s')
    ensures Inv(h, s')
  {
    forall k ensures KeyInv(h, s', k) {
      assert KeyInv(h, s, k);
    }
    EntriesKept(h, s, s');
  }

  // ------------------------------------------------------- the copier

  lemma ClaimKeeps(h: History, s: State, s': State)
    requires LegalHistory(h) && Inv(h, s) && Claims(s, s')
    ensures Inv(h, s')
  {
    forall k ensures KeyInv(h, s', k) {
      assert KeyInv(h, s, k);
    }
    EntriesKept(h, s, s');
  }

  lemma LandKeeps(h: History, s: State, s': State)
    requires LegalHistory(h) && Inv(h, s) && Lands(s, s')
    ensures Inv(h, s')
  {
    forall k ensures KeyInv(h, s', k) {
      assert KeyInv(h, s, k);
    }
    EntriesKept(h, s, s');
  }

  /** A row as the source showed it at `v` converges under the replay of every change from `x` on,
      whether `x` lies before `v` (changes the row already reflects are replayed over it) or after
      (nothing happened to the key in between). */
  lemma CopiedRowTracks(h: History, k: Key, v: nat, x: nat, n: nat)
    requires LegalHistory(h) && v <= n && x <= n <= |h.log| && Quiet(h, k, v, x)
    ensures Tracks(h, Shown(At(h, v, k), h.writable), k, x, n)
    ensures Mixes(h, Shown(At(h, v, k), h.writable), k, x, n)
  {
    var row := Shown(At(h, v, k), h.writable);
    AtShape(h, v, k);
    var y := if v <= x then x else v;
    if v <= x {
      QuietKeeps(h, k, v, x);
    }
    assert At(h, y, k) == At(h, v, k);
    if row.Some? {
      forall c | c in h.writable ensures HadBetween(h, k, c, row.value[c], x, n) {
        assert HadValue(h, k, c, row.value[c], y);
      }
    }
    if !Reset(h, k, x, n) {
      assert !Reset(h, k, y, n);
      PatchOnly(h, k, y, n);
      if row.Some? {
        forall c | c in h.writable && !Patched(h, k, c, x, n)
          ensures HadValue(h, k, c, row.value[c], n)
        {
          assert !Patched(h, k, c, y, n);
        }
      }
    }
  }

  lemma CopyKeeps(h: History, s: State, s': State)
    requires LegalHistory(h) && Inv(h, s) && Copies(h, s, s')
    ensures Inv(h, s')
  {
    forall k ensures KeyInv(h, s', k) {
      assert KeyInv(h, s, k);
      FirstInRange(h, s, k);
      assert (s'.phase(k) == s.phase(k) && SameRow(s, s', k)) || CopiedKey(h, s, s', k);
      if !(s'.phase(k) == s.phase(k) && SameRow(s, s', k)) {
        var v: nat :| s.phase(k).since <= v <= s.seen(k) && v <= s.now &&
                      RowAt(s'.shadow, k) == Shown(At(h, v, k), h.writable);
        CopiedRowTracks(h, k, v, First(s, k), s.now);
      }
    }
    forall k | k in s'.buf.entries ensures EntryInv(h, s', k) {
      assert EntryInv(h, s, k);
      CopyKeepsOrigin(h, s, s', k);
    }
  }

  /** A row copied under a moved image's origin is the image's own pre-move version, or one the
      stream has yet to announce. */
  lemma CopyKeepsOrigin(h: History, s: State, s': State, k: Key)
    requires LegalHistory(h) && Inv(h, s) && Copies(h, s, s')
    requires k in s.buf.entries
    ensures OriginOK(h, s', k, s.buf.entries[k])
    ensures FilledFromShadow(s', k, s.buf.entries[k])
  {
    var e := s.buf.entries[k];
    assert EntryInv(h, s, k);
    assert (s'.phase(k) == s.phase(k) && SameRow(s, s', k)) || CopiedKey(h, s, s', k);
    if e.Image? && e.oldKey.Some? && !e.oldKeyReused && e.oldKey.value in s'.shadow {
      var o := e.oldKey.value;
      assert KeyInv(h, s, o);
      assert (s'.phase(o) == s.phase(o) && SameRow(s, s', o)) || CopiedKey(h, s, s', o);
      if !SameRow(s, s', o) {
        var v: nat :| s.phase(o).since <= v <= s.seen(o) && v <= s.now &&
                      RowAt(s'.shadow, o) == Shown(At(h, v, o), h.writable);
        AtShape(h, v, o);
        forall c | c in h.writable && Marked(e, c) && c in s'.shadow[o]
          ensures HadValue(h, k, c, s'.shadow[o][c], s.delivered) ||
                  HadBetween(h, o, c, s'.shadow[o][c], s.delivered + 1, s.now)
        {
          assert HadValue(h, o, c, s'.shadow[o][c], v);
          if v <= s.delivered {
            CopiedBeforeMove(h, s, k, o, c, v);
          }
        }
      }
    }
  }

  lemma CopiedBeforeMove(h: History, s: State, k: Key, o: Key, c: Name, v: nat)
    requires LegalHistory(h) && Inv(h, s)
    requires k in s.buf.entries && LeftKey(s.buf.entries[k], o) && !s.buf.entries[k].oldKeyReused
    requires c in h.writable && Marked(s.buf.entries[k], c)
    requires v <= s.delivered && Quiet(h, o, v, First(s, o)) && At(h, v, o).Some?
    ensures SameValue(h, c, v, o, s.delivered, k)
  {
    assert EntryInv(h, s, k);
    FirstInRange(h, s, o);
    var x := First(s, o);
    if v < x {
      QuietKeeps(h, o, v, x);
      assert SameValue(h, c, x, o, s.delivered, k);
    } else {
      assert SameValue(h, c, v, o, s.delivered, k);
    }
  }

  // ------------------------------------------------------- stopping and resuming

  /** Replaying from an earlier change over a row that already reflects later ones converges too. */
  lemma TracksRewinds(h: History, row: Option<Row>, k: Key, x: nat, x': nat, n: nat)
    requires LegalHistory(h) && x' <= x <= n <= |h.log|
    requires Tracks(h, row, k, x, n) && Mixes(h, row, k, x, n)
    ensures Tracks(h, row, k, x', n) && Mixes(h, row, k, x', n)
  {
  }

  lemma RestartKeeps(h: History, s: State, s': State)
    requires LegalHistory(h) && Inv(h, s) && Restarts(s, s')
    ensures Inv(h, s')
  {
    var kept :| ResumesWith(s, s', kept);
    forall k ensures KeyInv(h, s', k) {
      assert KeyInv(h, s, k);
      FirstInRange(h, s, k);
      if k in s.notes {
        assert EntryInv(h, s, k);
      }
      assert First(s', k) <= First(s, k);
      if kept(k) {
        TracksRewinds(h, RowAt(s.shadow, k), k, First(s, k), First(s', k), s.now);
      }
    }
  }

  // ------------------------------------------------------- confirming

  lemma ConfirmKeeps(h: History, s: State, s': State)
    requires LegalHistory(h) && Inv(h, s) && Confirms(s, s')
    ensures Inv(h, s')
  {
    forall k ensures KeyInv(h, s', k) {
      assert KeyInv(h, s, k);
    }
    forall k | k in s'.buf.entries ensures EntryInv(h, s', k) {
      assert EntryInv(h, s, k);
      OriginKept(h, s, s', k, s.buf.entries[k], s.buf.entries[k]);
    }
  }
}
