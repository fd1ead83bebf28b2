/** Delivering one change into the buffer keeps the invariant, and the buffer never refuses it. */
module Delivery {
  import opened Options
  import opened Rows
  import opened Entries
  import opened Protocol
  import opened Invariant
  import opened Steps

  /** The buffer never refuses a change the source made. */
  lemma NeverRefuses(h: History, s: State)
    requires LegalHistory(h) && Inv(h, s) && s.delivered < s.now
    ensures Add(s.buf, NextEvent(h, s)).Some?
  {
    var ch := h.log[s.delivered];
    AtStep(h, s.delivered, ch.key);
    if ch.key in s.buf.entries {
      assert EntryInv(h, s, ch.key);
    }
    if ch.Move? && ch.oldKey in s.buf.entries {
      assert EntryInv(h, s, ch.oldKey);
    }
  }

  // ------------------------------------------------------- keys

  lemma DeliverKeepsKey(h: History, s: State, s': State, k: Key)
    requires LegalHistory(h) && Inv(h, s) && Delivers(h, s, s')
    ensures KeyInv(h, s', k)
  {
    assert KeyInv(h, s, k);
    var d := s.delivered;
    if Touches(h.log[d], k) {
      assert First(s', k) == First(s, k);
    } else if k !in s.notes && !s.phase(k).Uncut? && !s.phase(k).Claimed? {
      TracksSkips(h, RowAt(s.shadow, k), k, d, s.now);
    }
  }

  // ------------------------------------------------------- entries of keys the change does not touch

  /** What a delivery leaves of the rest of the state. */
  ghost predicate Delivered(h: History, s: State, s': State)
  {
    && s.delivered < s.now <= |h.log|
    && s'.delivered == s.delivered + 1 && s'.now == s.now && s'.resume == s.resume
    && s'.shadow == s.shadow
    && (forall o :: o in s'.notes ==>
          s'.notes[o].first == if o in s.notes then s.notes[o].first else s.delivered)
  }

  /** What a delivery leaves of an entry whose key it does not touch. */
  ghost predicate Spared(h: History, s: State, s': State, k: Key)
    requires s.delivered < |h.log|
  {
    && !Touches(h.log[s.delivered], k)
    && k in s.buf.entries && k in s'.buf.entries && k in s.notes && k in s'.notes
    && s'.notes[k] == s.notes[k]
    && var e, e', ch := s.buf.entries[k], s'.buf.entries[k], h.log[s.delivered];
    && (e' == e || (LeftKey(e, ch.key) && e' == e.(oldKeyReused := true)))
    && (Arrives(ch) && LeftKey(e, ch.key) ==> e'.oldKeyReused)
    && (e' != e ==> k !in s'.buf.pending)
    && (k in s'.buf.pending ==> k in s.buf.pending && s'.buf.pending[k] == s.buf.pending[k])
    && (e' == e && k in s.buf.pending && !LeftKey(e, ch.key) ==> k in s'.buf.pending)
  }

  /** What adding a change does to an entry of another key. */
  ghost predicate SparedEntry(b: Buf, b': Buf, ch: Change, k: Key)
  {
    && (k in b'.entries <==> k in b.entries)
    && (k in b'.pending ==> k in b.pending && b'.pending[k] == b.pending[k])
    && (k in b.entries ==>
          var e, e' := b.entries[k], b'.entries[k];
          && (e' == e || (LeftKey(e, ch.key) && e' == e.(oldKeyReused := true)))
          && (Arrives(ch) && LeftKey(e, ch.key) ==> e'.oldKeyReused)
          && (e' != e ==> k !in b'.pending)
          && (e' == e && k in b.pending && !LeftKey(e, ch.key) ==> k in b'.pending))
  }

  lemma AddSpares(b: Buf, ch: Change, delivered: nat, xid: nat, k: Key)
    requires ch.Move? ==> ch.oldKey != ch.key
    requires Add(b, Decode(ch, delivered, xid)).Some? && !Touches(ch, k)
    ensures SparedEntry(b, Add(b, Decode(ch, delivered, xid)).value, ch, k)
  {
  }

  lemma AddKeys(b: Buf, ch: Change, delivered: nat, xid: nat)
    requires ch.Move? ==> ch.oldKey != ch.key
    requires Add(b, Decode(ch, delivered, xid)).Some? && b.pending.Keys <= b.entries.Keys
    ensures var b' := Add(b, Decode(ch, delivered, xid)).value;
            && b'.entries.Keys == b.entries.Keys + {ch.key} + (if ch.Move? then {ch.oldKey} else {})
            && b'.pending.Keys <= b'.entries.Keys
  {
  }

  lemma DeliveryFrame(h: History, s: State, s': State)
    requires LegalHistory(h) && Inv(h, s) && Delivers(h, s, s')
    ensures Delivered(h, s, s')
    ensures s'.notes.Keys == s'.buf.entries.Keys && s'.buf.pending.Keys <= s'.buf.entries.Keys
    ensures forall k :: k in s'.buf.entries && !Touches(h.log[s.delivered], k) ==> Spared(h, s, s', k)
  {
    var ch := h.log[s.delivered];
    AtStep(h, s.delivered, ch.key);
    AddKeys(s.buf, ch, s.position, h.xids[s.delivered]);
    forall k | k in s'.buf.entries && !Touches(ch, k) ensures Spared(h, s, s', k) {
      AddSpares(s.buf, ch, s.position, h.xids[s.delivered], k);
    }
  }

  lemma UntouchedKeeps(h: History, s: State, s': State, k: Key)
    requires LegalHistory(h) && Inv(h, s) && Delivered(h, s, s') && Spared(h, s, s', k)
    ensures EntryInv(h, s', k)
  {
    assert EntryInv(h, s, k);
    var e, e', d := s.buf.entries[k], s'.buf.entries[k], s.delivered;
    AtStep(h, d, k);
    assert Stamped(h, d + 1, k, e') by {
      var i :| 0 <= i < d && i < |h.log| && StampedBy(h, d, k, e, i);
      assert StampedBy(h, d + 1, k, e', i);
    }
    assert Truthful(h, d + 1, k, e', s'.notes[k].first, s'.notes[k].filled) by {
      TruthfulSkips(h, d, k, e, s.notes[k].first, s.notes[k].filled);
      if e.Image? {
        assert forall c :: Unsaid(e', s.notes[k].filled, c) ==> Unsaid(e, s.notes[k].filled, c);
      }
    }
    UntouchedOrigin(h, s, s', k);
    UntouchedPending(h, s, s', k);
  }

  lemma TruthfulSkips(h: History, d: nat, k: Key, e: Entry, first: nat, filled: set<Name>)
    requires LegalHistory(h) && d < |h.log| && !Touches(h.log[d], k)
    requires Truthful(h, d, k, e, first, filled)
    ensures Truthful(h, d + 1, k, e, first, filled)
  {
    AtStep(h, d, k);
  }

  lemma UntouchedOrigin(h: History, s: State, s': State, k: Key)
    requires LegalHistory(h) && Inv(h, s) && Delivered(h, s, s') && Spared(h, s, s', k)
    ensures OriginOK(h, s', k, s'.buf.entries[k])
  {
    assert EntryInv(h, s, k);
    var e, e', d := s.buf.entries[k], s'.buf.entries[k], s.delivered;
    AtStep(h, d, k);
    if e'.Image? && e'.oldKey.Some? && !e'.oldKeyReused {
      AtStep(h, d, e'.oldKey.value);
      OriginMoves(h, s, s', k, e, k, e');
    }
  }

  /** A moved image's origin stays in order when the image's row, staying or moving on, keeps the
      values its markers stand for, and the origin holds no row but the image's own. */
  lemma OriginMoves(h: History, s: State, s': State, k: Key, e: Entry, k': Key, e': Entry)
    requires LegalHistory(h) && Delivered(h, s, s') && k in s.notes
    requires e.Image? && e'.Image? && e.oldKey.Some?
    requires e'.oldKey == e.oldKey && e'.oldKeyReused == e.oldKeyReused == false
    requires OriginOK(h, s, k, e)
    requires forall c :: c in h.writable && Marked(e', c) ==>
               Marked(e, c) && SameValue(h, c, s.delivered, k, s.delivered + 1, k')
    requires e.oldKey.value == k' || At(h, s.delivered + 1, e.oldKey.value).None?
    ensures OriginOK(h, s', k', e')
  {
  }

  lemma UntouchedPending(h: History, s: State, s': State, k: Key)
    requires LegalHistory(h) && Inv(h, s) && Delivered(h, s, s') && Spared(h, s, s', k)
    ensures k in s'.buf.pending ==> PendingOK(h, s', k, s'.buf.entries[k], s'.buf.pending[k])
    ensures AwaitOK(h, s', k, s'.buf.entries[k])
  {
    assert EntryInv(h, s, k);
    var e, e', d := s.buf.entries[k], s'.buf.entries[k], s.delivered;
    AtStep(h, d, k);
    if k in s'.buf.pending {
      if e.oldKey.Some? {
        AtStep(h, d, e.oldKey.value);
      }
      PendingMoves(h, s, s', k, e, e', s.buf.pending[k]);
    }
    if e.Image? && e.absenceAwaited {
      ResetStill(h, k, d, s.buf.pending[k].readLSN);
    }
  }

  /** A pending completion stays in order while the image's row keeps the values its markers stand
      for and its origin holds no other row. */
  lemma PendingMoves(h: History, s: State, s': State, k: Key, e: Entry, e': Entry, p: Completion)
    requires LegalHistory(h) && Delivered(h, s, s') && PendingOK(h, s, k, e, p)
    requires e'.Image? && e'.oldKey == e.oldKey && e'.oldKeyReused == e.oldKeyReused
    requires forall c :: c in h.writable && Marked(e', c) ==>
               Marked(e, c) && SameValue(h, c, s.delivered, k, s.delivered + 1, k)
    requires e.oldKey.Some? && !e.oldKeyReused ==>
               e.oldKey.value == k || At(h, s.delivered + 1, e.oldKey.value).None?
    ensures PendingOK(h, s', k, e', p)
  {
  }

  lemma ResetStill(h: History, k: Key, d: nat, b: nat)
    requires d < |h.log| && !Resets(h.log[d], k) && Reset(h, k, d, b)
    ensures Reset(h, k, d + 1, b)
  {
  }

  // ------------------------------------------------------- entries of keys the change touches

  lemma StampedNow(h: History, d: nat, k: Key, e: Entry)
    requires |h.xids| == |h.log| && d < |h.log| && Touches(h.log[d], k) && e.xid == h.xids[d]
    ensures Stamped(h, d + 1, k, e)
  {
    assert StampedBy(h, d + 1, k, e, d);
  }

  lemma InsertedKeeps(h: History, s: State, s': State)
    requires LegalHistory(h) && Inv(h, s) && Delivers(h, s, s') && h.log[s.delivered].Insert?
    ensures var k := h.log[s.delivered].key; k in s'.notes && k in s'.buf.entries && EntryInv(h, s', k)
  {
    var d, k := s.delivered, h.log[s.delivered].key;
    AtStep(h, d, k);
    FirstInRange(h, s, k);
    StampedNow(h, d, k, s'.buf.entries[k]);
  }

  lemma DeletedKeeps(h: History, s: State, s': State)
    requires LegalHistory(h) && Inv(h, s) && Delivers(h, s, s') && h.log[s.delivered].Delete?
    ensures var k := h.log[s.delivered].key; k in s'.notes && k in s'.buf.entries && EntryInv(h, s', k)
  {
    var d, k := s.delivered, h.log[s.delivered].key;
    AtStep(h, d, k);
    FirstInRange(h, s, k);
    StampedNow(h, d, k, s'.buf.entries[k]);
  }

  lemma UpdatedAfreshKeeps(h: History, s: State, s': State)
    requires LegalHistory(h) && Inv(h, s) && Delivers(h, s, s') && h.log[s.delivered].Update?
    requires h.log[s.delivered].key !in s.buf.entries
    ensures var k := h.log[s.delivered].key; k in s'.notes && k in s'.buf.entries && EntryInv(h, s', k)
  {
    var d, k := s.delivered, h.log[s.delivered].key;
    AtStep(h, d, k);
    StampedNow(h, d, k, s'.buf.entries[k]);
  }

  /** An UPDATE merged into a buffered image. */
  ghost predicate Overlaid(h: History, s: State, s': State, k: Key)
    requires s.delivered < |h.log| == |h.xids|
  {
    && h.log[s.delivered].Update? && h.log[s.delivered].key == k
    && k in s.buf.entries && k in s'.buf.entries && k in s.notes && k in s'.notes
    && s.buf.entries[k].Image?
    && s'.buf.entries[k] ==
         s.buf.entries[k].(columns := Overlay(s.buf.entries[k].columns, h.log[s.delivered].cols),
                           xid := h.xids[s.delivered])
    && s'.notes[k] == NoteOf(s, k, h.log[s.delivered])
    && s'.buf.pending == s.buf.pending
  }

  lemma OverlaidKeeps(h: History, s: State, s': State, k: Key)
    requires LegalHistory(h) && Inv(h, s) && Delivered(h, s, s') && Overlaid(h, s, s', k)
    ensures EntryInv(h, s', k)
  {
    assert EntryInv(h, s, k);
    var e, e', d := s.buf.entries[k], s'.buf.entries[k], s.delivered;
    AtStep(h, d, k);
    StampedNow(h, d, k, e');
    OverlaidIsTruthful(h, s, s', k);
    OverlaidPending(h, s, s', k);
  }

  lemma TruthfulOverlay(h: History, d: nat, k: Key, e: Entry, first: nat, filled: set<Name>)
    requires LegalHistory(h) && d < |h.log| && h.log[d].Update? && h.log[d].key == k
    requires first <= d && e.Image? && Truthful(h, d, k, e, first, filled)
    ensures var cols := h.log[d].cols;
            var filled' := set c | c in filled && !(c in cols && cols[c].Has?);
            Truthful(h, d + 1, k, e.(columns := Overlay(e.columns, cols), xid := h.xids[d]), first, filled')
  {
    var cols := h.log[d].cols;
    var filled' := set c | c in filled && !(c in cols && cols[c].Has?);
    var e' := e.(columns := Overlay(e.columns, cols), xid := h.xids[d]);
    AtStep(h, d, k);
    assert e'.columns.Keys == h.decoded;
    forall c | Unsaid(e', filled', c) && e'.oldKey.None?
      ensures !Reset(h, k, first, d + 1) && !Patched(h, k, c, first, d + 1)
    {
      assert Unsaid(e, filled, c) && !Patches(h.log[d], k, c);
    }
    forall c | c in e'.columns && e'.columns[c].Has? && c !in filled'
      ensures HadValue(h, k, c, e'.columns[c].value, d + 1)
    {
      if cols[c].Marker? {
        assert HadValue(h, k, c, e.columns[c].value, d);
      }
    }
  }

  lemma OverlaidIsTruthful(h: History, s: State, s': State, k: Key)
    requires LegalHistory(h) && Inv(h, s) && Delivered(h, s, s') && Overlaid(h, s, s', k)
    ensures Truthful(h, s'.delivered, k, s'.buf.entries[k], s'.notes[k].first, s'.notes[k].filled)
    ensures FilledFromShadow(s', k, s'.buf.entries[k])
  {
    assert EntryInv(h, s, k);
    TruthfulOverlay(h, s.delivered, k, s.buf.entries[k], s.notes[k].first, s.notes[k].filled);
  }

  lemma OverlaidPending(h: History, s: State, s': State, k: Key)
    requires LegalHistory(h) && Inv(h, s) && Delivered(h, s, s') && Overlaid(h, s, s', k)
    ensures k in s'.buf.pending ==> PendingOK(h, s', k, s'.buf.entries[k], s'.buf.pending[k])
    ensures AwaitOK(h, s', k, s'.buf.entries[k])
    ensures OriginOK(h, s', k, s'.buf.entries[k])
  {
    assert EntryInv(h, s, k);
    var e, e', d := s.buf.entries[k], s'.buf.entries[k], s.delivered;
    OverlaidMarkers(h, s, s', k);
    if e.oldKey.Some? {
      AtStep(h, d, e.oldKey.value);
      if !e.oldKeyReused {
        OriginMoves(h, s, s', k, e, k, e');
      }
    }
    if k in s.buf.pending {
      PendingMoves(h, s, s', k, e, e', s.buf.pending[k]);
    }
    if e.absenceAwaited {
      ResetStill(h, k, d, s.buf.pending[k].readLSN);
    }
  }

  lemma OverlaidMarkers(h: History, s: State, s': State, k: Key)
    requires LegalHistory(h) && Inv(h, s) && Delivered(h, s, s') && Overlaid(h, s, s', k)
    ensures forall c :: Marked(s'.buf.entries[k], c) ==>
              && Marked(s.buf.entries[k], c) && c in h.decoded
              && SameValue(h, c, s.delivered, k, s.delivered + 1, k)
  {
    assert EntryInv(h, s, k);
    AtStep(h, s.delivered, k);
  }

  // ------------------------------------------------------- key moves

  /** The two entries a key move leaves. */
  ghost predicate Moved(h: History, s: State, s': State, o: Key, q: Key, e': Entry)
    requires s.delivered < |h.log| == |h.xids|
  {
    var ch := h.log[s.delivered];
    && ch.Move? && ch.oldKey == o && ch.key == q && o != q
    && (o in s.buf.entries ==> s.buf.entries[o].Image?)
    && q in s'.buf.entries && o in s'.buf.entries && q in s'.notes && o in s'.notes
    && e' == s'.buf.entries[q] == MovedImage(NextEvent(h, s), o, Find(s.buf, q), Find(s.buf, o))
    && s'.buf.entries[o] == DeleteMarker(Earlier(s.position, Find(s.buf, o)), h.xids[s.delivered])
    && s'.notes[q] == Note(First(s, q), {}) && s'.notes[o] == Note(First(s, o), {})
    && o !in s'.buf.pending && q !in s'.buf.pending
  }

  lemma MoveFrame(h: History, s: State, s': State)
    requires LegalHistory(h) && Inv(h, s) && Delivers(h, s, s') && h.log[s.delivered].Move?
    ensures var ch := h.log[s.delivered];
            ch.key in s'.buf.entries && Moved(h, s, s', ch.oldKey, ch.key, s'.buf.entries[ch.key])
  {
    var ch := h.log[s.delivered];
    AtStep(h, s.delivered, ch.key);
    if ch.oldKey in s.buf.entries {
      assert EntryInv(h, s, ch.oldKey);
    }
    var from := Find(s.buf, ch.oldKey);
    var marked := MarkReused(s.buf, ch.key, if from.Some? then Some(ch.oldKey) else None);
    assert s'.buf.pending == marked.pending - {ch.key} - {ch.oldKey};
  }

  lemma MovedAwayKeeps(h: History, s: State, s': State, o: Key, q: Key, e': Entry)
    requires LegalHistory(h) && Inv(h, s) && Delivered(h, s, s') && Moved(h, s, s', o, q, e')
    ensures EntryInv(h, s', o)
  {
    AtStep(h, s.delivered, o);
    FirstInRange(h, s, o);
    StampedNow(h, s.delivered, o, s'.buf.entries[o]);
  }

  /** A marker the moved image keeps was a marker of the row's earlier image, and stands for the
      same value. */
  lemma MovedMarkers(h: History, s: State, s': State, o: Key, q: Key, e': Entry)
    requires LegalHistory(h) && Inv(h, s) && Delivered(h, s, s') && Moved(h, s, s', o, q, e')
    ensures forall c :: Marked(e', c) ==>
              && c in h.decoded && SameValue(h, c, s.delivered, o, s.delivered + 1, q)
              && (o in s.buf.entries ==> Marked(s.buf.entries[o], c))
  {
    AtStep(h, s.delivered, o);
    if o in s.buf.entries {
      assert EntryInv(h, s, o);
    }
  }

  /** Every column a deferred flush filled in place, and the change does not carry, holds the source's
      value. */
  ghost predicate FilledRight(h: History, s: State, o: Key, cols: Columns)
  {
    o in s.buf.entries && s.buf.entries[o].Image? ==>
      forall c :: c in FilledIn(s, o) && !(c in cols && cols[c].Has?) ==>
        && c in s.buf.entries[o].columns && s.buf.entries[o].columns[c].Has?
        && HadValue(h, o, c, s.buf.entries[o].columns[c].value, s.delivered)
  }

  /** A value the moved image takes over is the source's at the new key exactly when it was at the old. */
  lemma MovedCell(h: History, d: nat, o: Key, q: Key, c: Name, v: Value)
    requires LegalHistory(h) && d < |h.log| && h.log[d].Move? && h.log[d].oldKey == o && h.log[d].key == q
    requires c in h.log[d].cols
    ensures if h.log[d].cols[c].Has? then HadValue(h, q, c, h.log[d].cols[c].value, d + 1)
            else HadValue(h, o, c, v, d) <==> HadValue(h, q, c, v, d + 1)
  {
    AtStep(h, d, o);
    AtShape(h, d, o);
  }

  /** Delivering a key move leaves an entry that agrees with the source if and only if every column a
      deferred flush filled in place, and the move does not carry, happens to hold the source's value. */
  lemma MoveKeepsTruth(h: History, s: State, s': State, o: Key, q: Key, e': Entry)
    requires LegalHistory(h) && Inv(h, s) && Delivered(h, s, s') && Moved(h, s, s', o, q, e')
    ensures Truthful(h, s'.delivered, q, e', s'.notes[q].first, {}) <==>
            FilledRight(h, s, o, h.log[s.delivered].cols)
  {
    var d, cols := s.delivered, h.log[s.delivered].cols;
    AtStep(h, d, o);
    if o in s.buf.entries {
      assert EntryInv(h, s, o);
      MovedFromEntry(h, d, o, q, s.buf.entries[o], e', s.notes[o].first, FilledIn(s, o), s'.notes[q].first);
      assert FilledRight(h, s, o, cols) <==> TakenRight(h, d, o, s.buf.entries[o], FilledIn(s, o));
    } else {
      forall c | c in e'.columns && e'.columns[c].Has? ensures HadValue(h, q, c, e'.columns[c].value, d + 1) {
        MovedCell(h, d, o, q, c, e'.columns[c].value);
      }
    }
  }

  ghost predicate TakenRight(h: History, d: nat, o: Key, e: Entry, filled: set<Name>)
    requires d < |h.log| && h.log[d].Move? && e.Image?
  {
    forall c :: c in filled && !(c in h.log[d].cols && h.log[d].cols[c].Has?) ==>
      c in e.columns && e.columns[c].Has? && HadValue(h, o, c, e.columns[c].value, d)
  }

  lemma MovedFromEntry(h: History, d: nat, o: Key, q: Key, e: Entry, e': Entry, first: nat, filled: set<Name>, n: nat)
    requires LegalHistory(h) && d < |h.log| && h.log[d].Move? && h.log[d].oldKey == o && h.log[d].key == q
    requires e.Image? && Truthful(h, d, o, e, first, filled)
    requires forall c :: c in filled ==> c in e.columns && e.columns[c].Has?
    requires e'.Image? && e'.oldKey.Some? && e'.columns == Overlay(e.columns, h.log[d].cols)
    ensures Truthful(h, d + 1, q, e', n, {}) <==> TakenRight(h, d, o, e, filled)
  {
    var cols := h.log[d].cols;
    AtStep(h, d, o);
    forall c | c in h.decoded
      ensures if cols[c].Has? then HadValue(h, q, c, cols[c].value, d + 1)
              else e.columns[c].Has? ==>
                (HadValue(h, o, c, e.columns[c].value, d) <==> HadValue(h, q, c, e.columns[c].value, d + 1))
    {
      MovedCell(h, d, o, q, c, if e.columns[c].Has? then e.columns[c].value else Null);
    }
  }

  /** Every version of the row since its entry began shows the value a surviving marker stands for. */
  lemma MarkerVersions(h: History, s: State, o: Key, c: Name, y: nat)
    requires LegalHistory(h) && Inv(h, s) && s.delivered < s.now
    requires First(s, o) <= y <= s.delivered && At(h, y, o).Some? && At(h, s.delivered, o).Some?
    requires c in h.decoded
    requires o in s.buf.entries ==>
               s.buf.entries[o].Image? && s.buf.entries[o].oldKey.None? && Marked(s.buf.entries[o], c)
    ensures SameValue(h, c, y, o, s.delivered, o)
  {
    AtShape(h, s.delivered, o);
    if o in s.buf.entries {
      assert EntryInv(h, s, o);
      assert Unsaid(s.buf.entries[o], s.notes[o].filled, c);
      UnsaidKeeps(h, o, c, s.notes[o].first, y, s.delivered);
    }
  }

  /** A row's first move: its shadow row, under the key it leaves, still holds what its markers stand
      for, or a row the stream has yet to announce. */
  lemma FirstMoveShadow(h: History, s: State, o: Key, q: Key, c: Name)
    requires LegalHistory(h) && Inv(h, s) && s.delivered < s.now && o in s.shadow
    requires At(h, s.delivered + 1, o).None?
    requires c in h.writable && SameValue(h, c, s.delivered, o, s.delivered + 1, q)
    requires o in s.buf.entries ==>
               s.buf.entries[o].Image? && s.buf.entries[o].oldKey.None? && Marked(s.buf.entries[o], c)
    ensures c in s.shadow[o]
    ensures HadValue(h, q, c, s.shadow[o][c], s.delivered + 1) ||
            HadBetween(h, o, c, s.shadow[o][c], s.delivered + 2, s.now)
  {
    assert KeyInv(h, s, o);
    assert HadBetween(h, o, c, s.shadow[o][c], First(s, o), s.now);
    var y :| First(s, o) <= y <= s.now && HadValue(h, o, c, s.shadow[o][c], y);
    if y <= s.delivered {
      MarkerVersions(h, s, o, c, y);
    }
  }

  lemma FirstMoveOrigin(h: History, s: State, s': State, o: Key, q: Key, e': Entry)
    requires LegalHistory(h) && Inv(h, s) && Delivered(h, s, s') && Moved(h, s, s', o, q, e')
    requires o in s.buf.entries ==> s.buf.entries[o].oldKey.None?
    ensures OriginOK(h, s', q, e')
  {
    var d := s.delivered;
    AtStep(h, d, o);
    MovedMarkers(h, s, s', o, q, e');
    if o in s.shadow {
      forall c | c in h.writable && Marked(e', c) && c in s.shadow[o]
        ensures HadValue(h, q, c, s.shadow[o][c], d + 1) ||
                HadBetween(h, o, c, s.shadow[o][c], d + 2, s.now)
      {
        FirstMoveShadow(h, s, o, q, c);
      }
    }
    forall c, y | c in h.writable && Marked(e', c) && s'.notes[o].first <= y <= d + 1 && At(h, y, o).Some?
      ensures SameValue(h, c, y, o, d + 1, q)
    {
      MarkerVersions(h, s, o, c, y);
    }
  }

  /** A row that moves on keeps the origin it started from, even when it returns there. */
  lemma LaterMoveOrigin(h: History, s: State, s': State, o: Key, q: Key, e': Entry)
    requires LegalHistory(h) && Inv(h, s) && Delivered(h, s, s') && Moved(h, s, s', o, q, e')
    requires o in s.buf.entries && s.buf.entries[o].oldKey.Some?
    ensures OriginOK(h, s', q, e')
  {
    var e, d := s.buf.entries[o], s.delivered;
    assert EntryInv(h, s, o);
    MovedMarkers(h, s, s', o, q, e');
    AtStep(h, d, o);
    AtStep(h, d, e.oldKey.value);
    if !e'.oldKeyReused {
      OriginMoves(h, s, s', o, e, q, e');
    }
  }

  lemma MovedKeeps(h: History, s: State, s': State, o: Key, q: Key, e': Entry)
    requires LegalHistory(h) && Inv(h, s) && Delivered(h, s, s') && Moved(h, s, s', o, q, e')
    ensures EntryInv(h, s', q) <==> FilledRight(h, s, o, h.log[s.delivered].cols)
  {
    FirstInRange(h, s, q);
    StampedNow(h, s.delivered, q, e');
    MoveKeepsTruth(h, s, s', o, q, e');
    if o in s.buf.entries && s.buf.entries[o].oldKey.Some? {
      LaterMoveOrigin(h, s, s', o, q, e');
    } else {
      FirstMoveOrigin(h, s, s', o, q, e');
    }
  }

  // ------------------------------------------------------- the step

  /** A key move starts from an image whose columns filled in place are the source's, or carries them. */
  ghost predicate MoveIsRight(h: History, s: State)
    requires s.delivered < |h.log|
  {
    h.log[s.delivered].Move? ==> FilledRight(h, s, h.log[s.delivered].oldKey, h.log[s.delivered].cols)
  }

  /** Delivering a change keeps the invariant if and only if a key move takes no wrong value along. */
  lemma DeliverKeeps(h: History, s: State, s': State)
    requires LegalHistory(h) && Inv(h, s) && Delivers(h, s, s')
    ensures Inv(h, s') <==> MoveIsRight(h, s)
  {
    DeliveryFrame(h, s, s');
    if h.log[s.delivered].Move? {
      MoveDelivered(h, s, s');
    }
    if MoveIsRight(h, s) {
      RightDeliveryKeeps(h, s, s');
    }
  }

  /** The entry a delivered key move makes is as the invariant says exactly when the move is right. */
  lemma MoveDelivered(h: History, s: State, s': State)
    requires LegalHistory(h) && Inv(h, s) && Delivers(h, s, s') && Delivered(h, s, s') && h.log[s.delivered].Move?
    ensures h.log[s.delivered].key in s'.buf.entries && h.log[s.delivered].key in s'.notes
    ensures EntryInv(h, s', h.log[s.delivered].key) <==> MoveIsRight(h, s)
  {
    var ch := h.log[s.delivered];
    MoveFrame(h, s, s');
    MovedKeeps(h, s, s', ch.oldKey, ch.key, s'.buf.entries[ch.key]);
  }

  lemma RightDeliveryKeeps(h: History, s: State, s': State)
    requires LegalHistory(h) && Inv(h, s) && Delivers(h, s, s') && MoveIsRight(h, s)
    ensures Inv(h, s')
  {
    DeliveryFrame(h, s, s');
    forall k ensures KeyInv(h, s', k) {
      DeliverKeepsKey(h, s, s', k);
    }
    forall k | k in s'.buf.entries ensures EntryInv(h, s', k) {
      if !Touches(h.log[s.delivered], k) {
        UntouchedKeeps(h, s, s', k);
      } else {
        TouchedKeeps(h, s, s', k);
      }
    }
  }

  lemma TouchedKeeps(h: History, s: State, s': State, k: Key)
    requires LegalHistory(h) && Inv(h, s) && Delivers(h, s, s') && MoveIsRight(h, s)
    requires Delivered(h, s, s') && Touches(h.log[s.delivered], k)
    ensures k in s'.buf.entries && k in s'.notes && EntryInv(h, s', k)
  {
    match h.log[s.delivered]
    case Insert(_, _) => InsertedKeeps(h, s, s');
    case Delete(_) => DeletedKeeps(h, s, s');
    case Update(_, _) =>
      if k in s.buf.entries {
        assert Overlaid(h, s, s', k);
        OverlaidKeeps(h, s, s', k);
      } else {
        UpdatedAfreshKeeps(h, s, s');
      }
    case Move(o, q, _) =>
      MoveFrame(h, s, s');
      MovedAwayKeeps(h, s, s', o, q, s'.buf.entries[q]);
      MovedKeeps(h, s, s', o, q, s'.buf.entries[q]);
  }

  /** What a caller can see before delivering: every column the fallback filled in the image the row
      leaves from is one the move carries. In particular, an image it filled nothing in. */
  predicate CarriesFilled(h: History, s: State)
    requires s.delivered < |h.log|
  {
    var ch := h.log[s.delivered];
    ch.Move? ==> forall c :: c in FilledIn(s, ch.oldKey) ==> c in ch.cols && ch.cols[c].Has?
  }

  lemma CarriedIsRight(h: History, s: State)
    requires s.delivered < |h.log| && CarriesFilled(h, s)
    ensures MoveIsRight(h, s)
  {
  }
}
