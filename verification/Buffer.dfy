/** The change buffer in place: entries with the index of moved images, the pending completions and the
    oldest position kept current by every write (pkg/applier/buffer.go, hold.go, requeue.go, drain.go). */
module Buffer {
  import opened Options
  import opened Rows
  import opened Entries
  import opened Copying
  import opened Draining

  /** An image a flush did not write, with what it read for the image and where. */
  datatype HeldImage = HeldImage(entry: Entry, completed: Columns, readLSN: nat)

  function Images(held: map<Key, HeldImage>): (r: map<Key, Entry>)
  {
    map k | k in held :: held[k].entry
  }

  function Completions(held: map<Key, HeldImage>): (r: map<Key, Completion>)
  {
    map k | k in held :: Completion(held[k].completed, held[k].readLSN)
  }

  function Only<V>(m: map<Key, V>, keys: set<Key>): (r: map<Key, V>)
  {
    map k | k in m && k in keys :: m[k]
  }

  /** The images that left `key`. */
  function Leavers(entries: map<Key, Entry>, key: Key): (r: set<Key>)
  {
    set k | k in entries && LeftKey(entries[k], key)
  }

  /** The index lists exactly the images that left each key, and no key that none left. */
  ghost predicate Indexes(entries: map<Key, Entry>, movedFrom: map<Key, set<Key>>)
  {
    && (forall o :: o in movedFrom ==> movedFrom[o] == Leavers(entries, o) && movedFrom[o] != {})
    && (forall k :: k in entries && entries[k].Image? && entries[k].oldKey.Some? ==>
         entries[k].oldKey.value in movedFrom)
  }

  /** `oldest` is the least position any of the entries still owes the stream. */
  ghost predicate IsOldest(entries: map<Key, Entry>, hasOldest: bool, oldest: nat)
  {
    && (hasOldest <==> entries != map[])
    && (forall k :: k in entries ==> oldest <= entries[k].firstLSN)
    && (hasOldest ==> exists k :: k in entries && entries[k].firstLSN == oldest)
  }

  ghost predicate PendingImages(b: Buf)
  {
    forall k :: k in b.pending ==> k in b.entries && b.entries[k].Image?
  }

  class ChangeBuffer {
    var entries: map<Key, Entry>
    var movedFrom: map<Key, set<Key>>
    var pending: map<Key, Completion>
    var oldest: nat
    var hasOldest: bool

    function View(): (r: Buf)
      reads this
    {
      Buf(entries, pending)
    }

    ghost predicate Valid()
      reads this
    {
      Indexes(entries, movedFrom) && IsOldest(entries, hasOldest, oldest) && PendingImages(View())
    }

    constructor ()
      ensures Valid() && View() == EMPTY
    {
      entries, movedFrom, pending, oldest, hasOldest := map[], map[], map[], 0, false;
    }

    method TrackOldest(lsn: nat)
      modifies this`oldest, this`hasOldest
      ensures hasOldest
      ensures oldest == if old(hasOldest) && old(oldest) <= lsn then old(oldest) else lsn
    {
      if !hasOldest || lsn < oldest {
        oldest, hasOldest := lsn, true;
      }
    }

    /** Take the entry under `key` out of the index; what is left is exact for the other entries. */
    method Unindex(key: Key)
      requires Indexes(entries, movedFrom)
      modifies this`movedFrom
      ensures Indexes(entries - {key}, movedFrom)
    {
      if key !in entries {
        assert entries - {key} == entries;
        return;
      }
      var e := entries[key];
      UnindexIs(entries, movedFrom, key);
      if !(e.Image? && e.oldKey.Some?) { return; }
      var o := e.oldKey.value;
      var images := movedFrom[o] - {key};
      if images == {} {
        movedFrom := movedFrom - {o};
      } else {
        movedFrom := movedFrom[o := images];
      }
    }

    /** Store an entry that owes the stream no later a position than the one it replaces. */
    method Put(key: Key, e: Entry)
      requires Valid() && (key in entries ==> e.firstLSN <= entries[key].firstLSN)
      modifies this
      ensures Valid() && View() == Entries.Put(old(View()), key, e)
    {
      ghost var before := entries;
      ghost var was := oldest;
      Unindex(key);
      pending := pending - {key};
      entries := entries[key := e];
      if e.Image? && e.oldKey.Some? {
        var o := e.oldKey.value;
        var images := if o in movedFrom then movedFrom[o] else {};
        IndexIs(before, movedFrom, key, e);
        movedFrom := movedFrom[o := images + {key}];
      } else {
        SameIndex(before, movedFrom, key, e);
      }
      TrackOldest(e.firstLSN);
      OldestAfterPut(before, old(hasOldest), was, key, e);
    }

    method Remove(key: Key)
      requires Indexes(entries, movedFrom) && PendingImages(View())
      modifies this`entries, this`movedFrom, this`pending
      ensures Indexes(entries, movedFrom) && PendingImages(View())
      ensures entries == old(entries) - {key} && pending == old(pending) - {key}
    {
      Unindex(key);
      pending := pending - {key};
      entries := entries - {key};
    }

    /** Mark every image that left `key`, but the mover's own, as standing on a reused key. */
    method MarkOldKeyReused(key: Key, mover: Option<Key>)
      requires Valid()
      modifies this`entries, this`pending
      ensures Valid() && View() == MarkReused(old(View()), key, mover)
    {
      var todo := if key in movedFrom then movedFrom[key] else {};
      ghost var all := todo;
      ghost var before := View();
      assert all == Leavers(before.entries, key) by { IndexedLeavers(entries, movedFrom, key); }
      while todo != {}
        invariant todo <= all
        invariant View() == MarkedSome(before, all - todo, mover)
      {
        AnyKey(todo);
        var k: Key :| k in todo;
        ghost var done := all - todo;
        if mover != Some(k) {
          entries := entries[k := entries[k].(oldKeyReused := true)];
          pending := pending - {k};
        }
        todo := todo - {k};
        assert all - todo == done + {k};
        MarkOne(before, done, mover, k);
      }
      assert all - todo == all;
      MarkedAll(before, key, mover);
      MarkKeepsValid(before, key, mover, movedFrom, hasOldest, oldest);
    }

    method AddInsert(ev: ChangeEvent) returns (ok: bool)
      requires Valid()
      modifies this
      ensures Valid() && Applied(Entries.AddInsert(old(View()), ev), old(View()), View(), ok)
    {
      var cur := Find(View(), ev.key);
      if IsImage(cur) || !AllPresent(ev.columns) { return false; }
      ghost var before := View();
      MarkOldKeyReused(ev.key, None);
      MarkKeepsLSN(before, ev.key, None);
      Put(ev.key, Image(None, false, false, ev.columns, Earlier(ev.delivered, cur), ev.xid));
      return true;
    }

    method AddUpdate(ev: ChangeEvent) returns (ok: bool)
      requires Valid()
      modifies this
      ensures Valid() && Applied(Entries.AddUpdate(old(View()), ev), old(View()), View(), ok)
    {
      var cur := Find(View(), ev.key);
      ghost var before := View();
      if cur.None? {
        MarkOldKeyReused(ev.key, None);
        MarkKeepsLSN(before, ev.key, None);
        Put(ev.key, Image(None, false, false, ev.columns, ev.delivered, ev.xid));
        return true;
      }
      if IsDelete(cur) { return false; }
      var e := cur.value.(columns := Overlay(cur.value.columns, ev.columns), xid := ev.xid);
      entries := entries[ev.key := e];
      InPlaceKeepsValid(before, movedFrom, hasOldest, oldest, ev.key, e);
      return true;
    }

    method AddKeyMove(ev: ChangeEvent, oldKey: Key) returns (ok: bool)
      requires Valid() && oldKey != ev.key
      modifies this
      ensures Valid() && Applied(Entries.AddKeyMove(old(View()), ev, oldKey), old(View()), View(), ok)
    {
      var cur, from := Find(View(), ev.key), Find(View(), oldKey);
      if IsImage(cur) || IsDelete(from) { return false; }
      ghost var before := View();
      var mover := if from.Some? then Some(oldKey) else None;
      MarkOldKeyReused(ev.key, mover);
      MarkKeepsLSN(before, ev.key, mover);
      Put(ev.key, MovedImage(ev, oldKey, cur, from));
      Put(oldKey, DeleteMarker(Earlier(ev.delivered, from), ev.xid));
      return true;
    }

    method AddDelete(ev: ChangeEvent)
      requires Valid()
      modifies this
      ensures Valid() && View() == Entries.AddDelete(old(View()), ev)
    {
      Put(ev.key, DeleteMarker(Earlier(ev.delivered, Find(View(), ev.key)), ev.xid));
    }

    /** Merge one decoded change. An event the source could not have made is refused, and nothing in
        the buffer changes. */
    method Add(ev: ChangeEvent) returns (ok: bool)
      requires Valid()
      modifies this
      ensures Valid() && Applied(Entries.Add(old(View()), ev), old(View()), View(), ok)
    {
      match ev.kind
      case InsertKind => ok := AddInsert(ev);
      case UpdateKind =>
        if ev.oldKey.Some? && ev.oldKey.value != ev.key {
          ok := AddKeyMove(ev, ev.oldKey.value);
        } else {
          ok := AddUpdate(ev);
        }
      case DeleteKind =>
        AddDelete(ev);
        ok := true;
      case UnknownKind => ok := false;
    }

    /** Put back a batch a flush deferred; refused, and nothing changed, when the buffer already holds
        one of its keys. */
    method Requeue(batch: map<Key, Entry>) returns (ok: bool)
      requires Valid()
      modifies this
      ensures Valid() && ok == (batch.Keys !! old(entries).Keys)
      ensures View() == if ok then Buf(old(entries) + batch, old(pending)) else old(View())
    {
      if !(batch.Keys !! entries.Keys) { return false; }
      ghost var before := View();
      var todo := batch.Keys;
      AddAll(entries, batch);
      while todo != {}
        invariant todo <= batch.Keys && Valid()
        invariant View() == Buf(before.entries + (batch - todo), before.pending)
      {
        AnyKey(todo);
        var k: Key :| k in todo;
        AddOne(before.entries, batch, todo, k);
        assert pending - {k} == pending;
        Put(k, batch[k]);
        todo := todo - {k};
      }
      AddAll(before.entries, batch);
      return true;
    }

    method HoldOne(k: Key, h: HeldImage)
      requires Valid() && h.entry.Image? && k !in entries
      modifies this
      ensures Valid()
      ensures entries == old(entries)[k := h.entry]
      ensures pending == old(pending)[k := Completion(h.completed, h.readLSN)]
    {
      Put(k, h.entry);
      pending := pending[k := Completion(h.completed, h.readLSN)];
    }

    /** Put back the images a flush held, each with its completion pending. */
    method Hold(held: map<Key, HeldImage>) returns (ok: bool)
      requires Valid() && forall k :: k in held ==> held[k].entry.Image?
      modifies this
      ensures Valid() && ok == (held.Keys !! old(entries).Keys)
      ensures View() == if ok then Buf(old(entries) + Images(held), old(pending) + Completions(held)) else old(View())
    {
      if !(held.Keys !! entries.Keys) { return false; }
      ghost var before, images, completions := View(), Images(held), Completions(held);
      var todo := held.Keys;
      AddAll(entries, images);
      AddAll(pending, completions);
      while todo != {}
        invariant todo <= held.Keys && Valid()
        invariant entries == before.entries + (images - todo) && pending == before.pending + (completions - todo)
      {
        AnyKey(todo);
        var k: Key :| k in todo;
        AddOne(before.entries, images, todo, k);
        AddOne(before.pending, completions, todo, k);
        HoldOne(k, held[k]);
        todo := todo - {k};
      }
      AddAll(before.entries, images);
      AddAll(before.pending, completions);
      return true;
    }

    method TakeOne(k: Key)
      requires Valid() && k in pending
      modifies this`entries, this`pending
      ensures Valid() && pending == old(pending) - {k} && |pending| == |old(pending)| - 1
      ensures entries ==
                old(entries)[k := old(entries[k]).(columns := Fill(old(entries[k]).columns, old(pending[k]).columns))]
    {
      ghost var was := View();
      var e := entries[k].(columns := Fill(entries[k].columns, pending[k].columns));
      InPlaceKeepsValid(was, movedFrom, hasOldest, oldest, k, e);
      entries := entries[k := e];
      pending := pending - {k};
      assert was.pending.Keys == pending.Keys + {k};
    }

    /** Let in every completion read at or below `passed`; `taken` counts them. */
    method Release(passed: nat) returns (taken: nat)
      requires Valid()
      modifies this`entries, this`pending
      ensures Valid() && View() == Entries.Release(old(View()), passed)
      ensures taken == |old(pending)| - |pending|
    {
      ghost var before := View();
      var todo := pending.Keys;
      taken := 0;
      ReleasedNone(before, passed);
      while todo != {}
        invariant todo <= before.pending.Keys
        invariant Valid() && View() == ReleasedSome(before, before.pending.Keys - todo, passed)
        invariant taken == |before.pending| - |pending|
      {
        AnyKey(todo);
        var k: Key :| k in todo;
        ReleaseOne(before, before.pending.Keys - todo, passed, k);
        assert before.pending.Keys - (todo - {k}) == before.pending.Keys - todo + {k};
        if pending[k].readLSN <= passed {
          TakeOne(k);
          taken := taken + 1;
        }
        todo := todo - {k};
      }
      assert before.pending.Keys - todo == before.pending.Keys;
      ReleasedAll(before, passed);
    }

    /** Let one entry go, or keep it and count its position among those still owed. */
    method DrainOne(ghost b: Buf, state: Judged, unseen: set<Key>, k: Key) returns (w: Way)
      requires k in entries && k in state && pending == b.pending
      requires Indexes(entries, movedFrom) && PendingImages(View())
      modifies this
      ensures Indexes(entries, movedFrom) && PendingImages(View()) && pending == b.pending
      ensures w == WayOf(b, state, unseen, k)
      ensures w.Flush? || w.Discard? ==>
                entries == old(entries) - {k} && hasOldest == old(hasOldest) && oldest == old(oldest)
      ensures !w.Flush? && !w.Discard? ==>
                && entries == old(entries) && hasOldest
                && oldest ==
                  if old(hasOldest) && old(oldest) <= entries[k].firstLSN then old(oldest) else entries[k].firstLSN
    {
      if k in pending {
        TrackOldest(entries[k].firstLSN);
        return HoldBack;
      }
      if k in unseen {
        TrackOldest(entries[k].firstLSN);
        return Wait;
      }
      match state[k]
      case KeyUncut =>
        Remove(k);
        assert pending == b.pending;
        return Discard;
      case KeyLanded =>
        Remove(k);
        assert pending == b.pending;
        return Flush;
      case KeyInFlight =>
        TrackOldest(entries[k].firstLSN);
        return Defer;
    }

    /** Decide every entry against one reading of the copy and one snapshot: hand over exactly what is due, drop
        exactly what is moot, keep the rest, and count each way. */
    method Drain(classify: Key -> KeyState, visible: nat -> bool)
      returns (batch: map<Key, Entry>, tally: Tally, ghost state: Judged)
      requires Valid()
      modifies this
      ensures Valid() && Parts(old(entries), batch, entries)
      ensures DrainedBy(old(View()), classify, visible, state, batch, View())
      ensures LetGo(old(View()), classify, visible, batch, View()) && Counts(tally, old(View()), visible, batch, View())
    {
      ghost var b := View();
      batch, tally, state := DrainSplit(classify, visible);
      DrainedIsLetGo(b, classify, visible, state, batch, View());
      SplitCounts(b, classify, visible, state, batch, View());
    }

    method DrainSplit(classify: Key -> KeyState, visible: nat -> bool)
      returns (batch: map<Key, Entry>, tally: Tally, ghost state: Judged)
      requires Valid()
      modifies this
      ensures Valid() && Parts(old(entries), batch, entries)
      ensures DrainedBy(old(View()), classify, visible, state, batch, View())
      ensures tally == TallyOf(Split(old(View()), state, Unseen(old(entries), visible)), {})
    {
      var unseen := Unseen(entries, visible);
      var judged := DeferPairs(entries, unseen, Judge(entries, classify, visible));
      state := judged;
      ghost var b := View();
      SplitIsExact(b, judged, unseen);
      forall k | k in judged ensures GoesTo(Split(b, judged, unseen), k, WayOf(b, judged, unseen, k)) {
      }
      batch, tally := DrainAs(b, Split(b, judged, unseen), judged, unseen);
    }

    method DrainAs(ghost b: Buf, ghost d: Drained, judged: Judged, unseen: set<Key>)
      returns (batch: map<Key, Entry>, tally: Tally)
      requires Valid() && View() == b && judged.Keys == b.entries.Keys
      requires forall k :: k in judged ==> GoesTo(d, k, WayOf(b, judged, unseen, k))
      requires d.flushed + d.discarded + d.deferred + d.held + d.unseen <= b.entries.Keys
      modifies this
      ensures Valid() && pending == b.pending
      ensures batch == Only(b.entries, d.flushed) && entries == b.entries - (d.flushed + d.discarded)
      ensures tally == TallyOf(d, {}) && Parts(b.entries, batch, entries)
    {
      hasOldest := false;
      SweepStarts(b, d, oldest);
      batch, tally := Sweep(b, d, judged, unseen);
      SweepEnds(b, d, entries, batch, hasOldest, oldest);
    }

    method SweepKey(ghost b: Buf, judged: Judged, unseen: set<Key>, ghost d: Drained, ghost todo: set<Key>,
                    batch: map<Key, Entry>, tally: Tally, k: Key)
      returns (batch': map<Key, Entry>, tally': Tally)
      requires k in judged && k in b.entries && k in todo && GoesTo(d, k, WayOf(b, judged, unseen, k))
      requires Indexes(entries, movedFrom) && PendingImages(View()) && pending == b.pending
      requires Swept(b, d, todo, entries, batch, hasOldest, oldest) && tally == TallyOf(d, todo)
      modifies this
      ensures Indexes(entries, movedFrom) && PendingImages(View()) && pending == b.pending
      ensures Swept(b, d, todo - {k}, entries, batch', hasOldest, oldest) && tally' == TallyOf(d, todo - {k})
    {
      ghost var way := WayOf(b, judged, unseen, k);
      assert k in entries && entries[k] == b.entries[k];
      SweepOne(b, d, todo, entries, batch, hasOldest, oldest, k, way);
      TallyOne(d, todo, k, way);
      var e := entries[k];
      var w := DrainOne(b, judged, unseen, k);
      batch' := if w.Flush? then batch[k := e] else batch;
      tally' := Count(tally, w);
    }

    method Sweep(ghost b: Buf, ghost d: Drained, judged: Judged, unseen: set<Key>)
      returns (batch: map<Key, Entry>, tally: Tally)
      requires Indexes(entries, movedFrom) && PendingImages(View()) && pending == b.pending
      requires judged.Keys == b.entries.Keys
      requires forall k :: k in judged ==> GoesTo(d, k, WayOf(b, judged, unseen, k))
      requires Swept(b, d, judged.Keys, entries, map[], hasOldest, oldest)
      requires Tally(0, 0, 0, 0, 0) == TallyOf(d, judged.Keys)
      modifies this
      ensures Indexes(entries, movedFrom) && PendingImages(View()) && pending == b.pending
      ensures Swept(b, d, {}, entries, batch, hasOldest, oldest) && tally == TallyOf(d, {})
    {
      batch, tally := map[], Tally(0, 0, 0, 0, 0);
      var todo := judged.Keys;
      while todo != {}
        invariant todo <= judged.Keys
        invariant Indexes(entries, movedFrom) && PendingImages(View()) && pending == b.pending
        invariant Swept(b, d, todo, entries, batch, hasOldest, oldest) && tally == TallyOf(d, todo)
      {
        AnyKey(todo);
        var k: Key :| k in todo;
        batch, tally := SweepKey(b, judged, unseen, d, todo, batch, tally, k);
        todo := todo - {k};
      }
    }

    /** The least position the buffer still owes the stream. */
    method OldestPending() returns (lsn: nat, ok: bool)
      requires Valid()
      ensures IsOldest(entries, ok, lsn)
    {
      return oldest, hasOldest;
    }
  }

  /** The outcome of an operation that may refuse: the new contents, or the old ones untouched. */
  ghost predicate Applied(spec: Option<Buf>, before: Buf, after: Buf, ok: bool)
  {
    ok == spec.Some? && after == if ok then spec.value else before
  }

  // ------------------------------------------------------- the index

  lemma IndexedLeavers(entries: map<Key, Entry>, movedFrom: map<Key, set<Key>>, key: Key)
    requires Indexes(entries, movedFrom)
    ensures key in movedFrom ==> movedFrom[key] == Leavers(entries, key)
    ensures key !in movedFrom ==> Leavers(entries, key) == {}
  {
    if key !in movedFrom && Leavers(entries, key) != {} {
      AnyKey(Leavers(entries, key));
    }
  }

  lemma UnindexIs(entries: map<Key, Entry>, movedFrom: map<Key, set<Key>>, key: Key)
    requires Indexes(entries, movedFrom) && key in entries
    ensures var e := entries[key];
            if e.Image? && e.oldKey.Some? then
              var o := e.oldKey.value;
              && o in movedFrom
              && Indexes(entries - {key},
                         if movedFrom[o] - {key} == {} then movedFrom - {o} else movedFrom[o := movedFrom[o] - {key}])
            else Indexes(entries - {key}, movedFrom)
  {
  }

  lemma IndexIs(before: map<Key, Entry>, movedFrom: map<Key, set<Key>>, key: Key, e: Entry)
    requires Indexes(before - {key}, movedFrom) && e.Image? && e.oldKey.Some?
    ensures var o := e.oldKey.value;
            Indexes(before[key := e], movedFrom[o := (if o in movedFrom then movedFrom[o] else {}) + {key}])
  {
    var after := before[key := e];
    IndexedLeavers(before - {key}, movedFrom, e.oldKey.value);
    forall o ensures Leavers(after, o) ==
                     if e.oldKey == Some(o) then Leavers(before - {key}, o) + {key} else Leavers(before - {key}, o)
    {
    }
    forall k | k in after && k != key ensures k in before - {key} && (before - {key})[k] == after[k] {
    }
  }

  lemma SameIndex(before: map<Key, Entry>, movedFrom: map<Key, set<Key>>, key: Key, e: Entry)
    requires Indexes(before - {key}, movedFrom) && !(e.Image? && e.oldKey.Some?)
    ensures Indexes(before[key := e], movedFrom)
  {
    forall o ensures Leavers(before[key := e], o) == Leavers(before - {key}, o) {
    }
    forall k | k in before && k != key ensures k in before - {key} && (before - {key})[k] == before[k] {
    }
  }

  // ------------------------------------------------------- the oldest position

  lemma OldestAfterPut(before: map<Key, Entry>, hasOldest: bool, oldest: nat, key: Key, e: Entry)
    requires IsOldest(before, hasOldest, oldest)
    requires key in before ==> e.firstLSN <= before[key].firstLSN
    ensures IsOldest(before[key := e], true, if hasOldest && oldest <= e.firstLSN then oldest else e.firstLSN)
  {
    var after := before[key := e];
    assert key in after;
    if hasOldest && oldest <= e.firstLSN {
      var k :| k in before && before[k].firstLSN == oldest;
      assert after[k].firstLSN == oldest;
    } else {
      assert after[key].firstLSN == e.firstLSN;
    }
  }

  // ------------------------------------------------------- marking reuse

  function MarkedSome(b: Buf, keys: set<Key>, mover: Option<Key>): (r: Buf)
    requires keys <= b.entries.Keys && forall k :: k in keys ==> b.entries[k].Image?
  {
    Buf(map k | k in b.entries ::
          if k in keys && mover != Some(k) then b.entries[k].(oldKeyReused := true) else b.entries[k],
        map k | k in b.pending && !(k in keys && mover != Some(k)) :: b.pending[k])
  }

  lemma MarkOne(b: Buf, done: set<Key>, mover: Option<Key>, k: Key)
    requires done + {k} <= b.entries.Keys && forall j :: j in done + {k} ==> b.entries[j].Image?
    requires k !in done
    ensures MarkedSome(b, done + {k}, mover) ==
            if mover == Some(k) then MarkedSome(b, done, mover)
            else Buf(MarkedSome(b, done, mover).entries[k := b.entries[k].(oldKeyReused := true)],
                     MarkedSome(b, done, mover).pending - {k})
  {
  }

  lemma MarkedAll(b: Buf, key: Key, mover: Option<Key>)
    ensures MarkedSome(b, Leavers(b.entries, key), mover) == MarkReused(b, key, mover)
  {
  }

  lemma MarkKeepsLSN(b: Buf, key: Key, mover: Option<Key>)
    ensures MarkReused(b, key, mover).entries.Keys == b.entries.Keys
    ensures forall k :: k in b.entries ==> MarkReused(b, key, mover).entries[k].firstLSN == b.entries[k].firstLSN
  {
  }

  lemma MarkKeepsValid(b: Buf, key: Key, mover: Option<Key>, movedFrom: map<Key, set<Key>>, hasOldest: bool,
                       oldest: nat)
    requires Indexes(b.entries, movedFrom) && IsOldest(b.entries, hasOldest, oldest) && PendingImages(b)
    ensures var m := MarkReused(b, key, mover);
            Indexes(m.entries, movedFrom) && IsOldest(m.entries, hasOldest, oldest) && PendingImages(m)
  {
    var m := MarkReused(b, key, mover);
    MarkKeepsLSN(b, key, mover);
    forall o ensures Leavers(m.entries, o) == Leavers(b.entries, o) {
      assert forall k :: k in b.entries ==> (LeftKey(m.entries[k], o) <==> LeftKey(b.entries[k], o));
    }
    forall k | k in m.entries && m.entries[k].Image?
      ensures b.entries[k].Image? && b.entries[k].oldKey == m.entries[k].oldKey
    {
    }
    if hasOldest {
      var k :| k in b.entries && b.entries[k].firstLSN == oldest;
      assert m.entries[k].firstLSN == oldest;
    }
  }

  lemma InPlaceKeepsValid(b: Buf, movedFrom: map<Key, set<Key>>, hasOldest: bool, oldest: nat, key: Key, e: Entry)
    requires Indexes(b.entries, movedFrom) && IsOldest(b.entries, hasOldest, oldest) && PendingImages(b)
    requires key in b.entries && b.entries[key].Image? && e.Image?
    requires e.oldKey == b.entries[key].oldKey && e.firstLSN == b.entries[key].firstLSN
    ensures var after := b.entries[key := e];
            Indexes(after, movedFrom) && IsOldest(after, hasOldest, oldest) && PendingImages(Buf(after, b.pending))
  {
    var after := b.entries[key := e];
    forall o ensures Leavers(after, o) == Leavers(b.entries, o) {
    }
    if hasOldest {
      var k :| k in b.entries && b.entries[k].firstLSN == oldest;
      assert after[k].firstLSN == oldest;
    }
  }

  // ------------------------------------------------------- putting back

  lemma AddOne<V>(base: map<Key, V>, extra: map<Key, V>, todo: set<Key>, k: Key)
    requires k in extra && k in todo
    ensures (base + (extra - todo))[k := extra[k]] == base + (extra - (todo - {k}))
    ensures k !in base ==> k !in base + (extra - todo)
  {
  }

  lemma AddAll<V>(base: map<Key, V>, extra: map<Key, V>)
    ensures base + (extra - {}) == base + extra
    ensures base + (extra - extra.Keys) == base
  {
  }

  // ------------------------------------------------------- releasing

  function ReleasedSome(b: Buf, keys: set<Key>, passed: nat): (r: Buf)
  {
    Buf(map k | k in b.entries ::
          if k in keys && k in b.pending && b.pending[k].readLSN <= passed && b.entries[k].Image?
          then b.entries[k].(columns := Fill(b.entries[k].columns, b.pending[k].columns))
          else b.entries[k],
        map k | k in b.pending && !(k in keys && b.pending[k].readLSN <= passed) :: b.pending[k])
  }

  lemma ReleasedNone(b: Buf, passed: nat)
    ensures ReleasedSome(b, {}, passed) == b
  {
  }

  lemma ReleaseOne(b: Buf, done: set<Key>, passed: nat, k: Key)
    requires PendingImages(b) && k in b.pending && k !in done
    ensures var r := ReleasedSome(b, done, passed);
            && k in r.entries && r.entries[k] == b.entries[k] && k in r.pending && r.pending[k] == b.pending[k]
            && ReleasedSome(b, done + {k}, passed) ==
               if b.pending[k].readLSN > passed then r
               else Buf(r.entries[k := b.entries[k].(columns := Fill(b.entries[k].columns, b.pending[k].columns))],
                        r.pending - {k})
  {
  }

  lemma ReleasedAll(b: Buf, passed: nat)
    ensures ReleasedSome(b, b.pending.Keys, passed) == Entries.Release(b, passed)
  {
  }

  // ------------------------------------------------------- draining

  /** What a drain has done when the entries in `todo` are yet to be decided. */
  ghost predicate Swept(b: Buf, d: Drained, todo: set<Key>, entries: map<Key, Entry>, batch: map<Key, Entry>,
                        hasOldest: bool, oldest: nat)
  {
    && entries == b.entries - (d.flushed + d.discarded - todo)
    && batch == Only(b.entries, d.flushed - todo)
    && IsOldest(b.entries - d.flushed - d.discarded - todo, hasOldest, oldest)
  }

  /** The buffer `b` was drained by the least deferral `state`: the batch is the flushed part, and what is left is
      all but that and the discarded part. */
  ghost predicate DrainedBy(b: Buf, classify: Key -> KeyState, visible: nat -> bool, state: Judged,
                            batch: map<Key, Entry>, after: Buf)
  {
    && state.Keys == b.entries.Keys
    && IsLeast(b.entries, Unseen(b.entries, visible), Judge(b.entries, classify, visible), state)
    && var d := Split(b, state, Unseen(b.entries, visible));
    && batch == Only(b.entries, d.flushed)
    && after == Buf(b.entries - (d.flushed + d.discarded), b.pending)
  }

  /** The batch is every entry that is due and no other, and what is neither there nor kept is every entry that is
      moot and no other. */
  ghost predicate LetGo(b: Buf, classify: Key -> KeyState, visible: nat -> bool, batch: map<Key, Entry>, after: Buf)
  {
    && (forall k :: k in batch <==> Due(b, classify, visible, k))
    && (forall k :: k in b.entries && k !in batch && k !in after.entries <==> Moot(b, classify, visible, k))
  }

  lemma DrainedIsLetGo(b: Buf, classify: Key -> KeyState, visible: nat -> bool, state: Judged,
                       batch: map<Key, Entry>, after: Buf)
    requires DrainedBy(b, classify, visible, state, batch, after)
    ensures LetGo(b, classify, visible, batch, after)
  {
    forall k | k in b.entries
      ensures k in batch <==> Due(b, classify, visible, k)
      ensures k !in batch && k !in after.entries <==> Moot(b, classify, visible, k)
    {
      DrainExactly(b, classify, visible, state, k);
    }
  }

  /** The kept entries whose transaction is not seen and that no completion is pending for. */
  function UnseenKept(after: Buf, visible: nat -> bool): (keys: set<Key>)
  {
    set k | k in after.entries && k !in after.pending && !visible(after.entries[k].xid)
  }

  /** The counts a drain reports are those of what it did. */
  ghost predicate Counts(t: Tally, b: Buf, visible: nat -> bool, batch: map<Key, Entry>, after: Buf)
  {
    && t.flushed == |batch| && t.held == |after.entries.Keys * after.pending.Keys|
    && t.unseen == |UnseenKept(after, visible)|
    && t.flushed + t.discarded + t.deferred + t.held + t.unseen == |b.entries|
    && t.flushed + t.discarded + |after.entries| == |b.entries|
  }

  lemma FiveParts(whole: set<Key>, p: set<Key>, q: set<Key>, r: set<Key>, s: set<Key>, t: set<Key>)
    requires p + q + r + s + t == whole && p !! q !! r !! s !! t
    ensures |p| + |q| + |r| + |s| + |t| == |whole| && |p| + |q| + |whole - (p + q)| == |whole|
  {
    assert whole - (p + q) == r + s + t;
  }

  lemma PartsAre(b: Buf, state: Judged, visible: nat -> bool, batch: map<Key, Entry>, after: Buf)
    requires state.Keys == b.entries.Keys
    requires var d := Split(b, state, Unseen(b.entries, visible));
             batch == Only(b.entries, d.flushed) && after == Buf(b.entries - (d.flushed + d.discarded), b.pending)
    ensures var d := Split(b, state, Unseen(b.entries, visible));
            && batch.Keys == d.flushed && after.entries.Keys == b.entries.Keys - (d.flushed + d.discarded)
            && after.entries.Keys * after.pending.Keys == d.held && UnseenKept(after, visible) == d.unseen
  {
  }

  lemma SplitCounts(b: Buf, classify: Key -> KeyState, visible: nat -> bool, state: Judged, batch: map<Key, Entry>,
                    after: Buf)
    requires DrainedBy(b, classify, visible, state, batch, after)
    ensures Counts(TallyOf(Split(b, state, Unseen(b.entries, visible)), {}), b, visible, batch, after)
  {
    var d := Split(b, state, Unseen(b.entries, visible));
    SplitIsExact(b, state, Unseen(b.entries, visible));
    PartsAre(b, state, visible, batch, after);
    CountsAre(d, b, visible, batch, after);
  }

  lemma CountsAre(d: Drained, b: Buf, visible: nat -> bool, batch: map<Key, Entry>, after: Buf)
    requires d.flushed + d.discarded + d.deferred + d.held + d.unseen == b.entries.Keys
    requires d.flushed !! d.discarded !! d.deferred !! d.held !! d.unseen
    requires batch.Keys == d.flushed && after.entries.Keys == b.entries.Keys - (d.flushed + d.discarded)
    requires after.entries.Keys * after.pending.Keys == d.held && UnseenKept(after, visible) == d.unseen
    ensures Counts(TallyOf(d, {}), b, visible, batch, after)
  {
    FiveParts(b.entries.Keys, d.flushed, d.discarded, d.deferred, d.held, d.unseen);
    TallyIsWhole(d);
    assert |batch| == |batch.Keys| && |b.entries| == |b.entries.Keys| && |after.entries| == |after.entries.Keys|;
  }

  lemma TallyIsWhole(d: Drained)
    ensures TallyOf(d, {}) == Tally(|d.flushed|, |d.discarded|, |d.deferred|, |d.held|, |d.unseen|)
  {
    assert d.flushed - {} == d.flushed && d.discarded - {} == d.discarded && d.deferred - {} == d.deferred;
    assert d.held - {} == d.held && d.unseen - {} == d.unseen;
  }

  /** Two parts of a buffer that share no key, each entry as it was. */
  ghost predicate Parts(whole: map<Key, Entry>, batch: map<Key, Entry>, rest: map<Key, Entry>)
  {
    && batch.Keys !! rest.Keys
    && (forall k :: k in batch ==> k in whole && batch[k] == whole[k])
    && (forall k :: k in rest ==> k in whole && rest[k] == whole[k])
  }

  lemma SweepStarts(b: Buf, d: Drained, oldest: nat)
    requires d.flushed + d.discarded + d.deferred + d.held + d.unseen <= b.entries.Keys
    ensures Swept(b, d, b.entries.Keys, b.entries, map[], false, oldest)
    ensures TallyOf(d, b.entries.Keys) == Tally(0, 0, 0, 0, 0)
  {
    assert d.flushed - b.entries.Keys == {} && d.discarded - b.entries.Keys == {};
    assert d.deferred - b.entries.Keys == {} && d.held - b.entries.Keys == {} && d.unseen - b.entries.Keys == {};
    assert d.flushed + d.discarded - b.entries.Keys == {};
    assert b.entries - {} == b.entries;
    assert b.entries - d.flushed - d.discarded - b.entries.Keys == map[];
  }

  lemma SweepOne(b: Buf, d: Drained, todo: set<Key>, entries: map<Key, Entry>, batch: map<Key, Entry>,
                 hasOldest: bool, oldest: nat, k: Key, w: Way)
    requires k in b.entries && k in todo && GoesTo(d, k, w)
    requires Swept(b, d, todo, entries, batch, hasOldest, oldest)
    ensures var lsn := b.entries[k].firstLSN;
            if w.Flush? then Swept(b, d, todo - {k}, entries - {k}, batch[k := b.entries[k]], hasOldest, oldest)
            else if w.Discard? then Swept(b, d, todo - {k}, entries - {k}, batch, hasOldest, oldest)
            else Swept(b, d, todo - {k}, entries, batch, true, if hasOldest && oldest <= lsn then oldest else lsn)
  {
    var kept := b.entries - d.flushed - d.discarded - todo;
    var kept' := b.entries - d.flushed - d.discarded - (todo - {k});
    if w.Flush? || w.Discard? {
      assert kept' == kept;
      assert b.entries - (d.flushed + d.discarded - (todo - {k})) == entries - {k};
      if w.Flush? {
        assert Only(b.entries, d.flushed - (todo - {k})) == batch[k := b.entries[k]];
      } else {
        assert d.flushed - (todo - {k}) == d.flushed - todo;
      }
    } else {
      assert d.flushed + d.discarded - (todo - {k}) == d.flushed + d.discarded - todo;
      assert d.flushed - (todo - {k}) == d.flushed - todo;
      assert kept' == kept[k := b.entries[k]];
      OldestAfterPut(kept, hasOldest, oldest, k, b.entries[k]);
    }
  }

  lemma SweepEnds(b: Buf, d: Drained, entries: map<Key, Entry>, batch: map<Key, Entry>, hasOldest: bool, oldest: nat)
    requires Swept(b, d, {}, entries, batch, hasOldest, oldest)
    ensures entries == b.entries - (d.flushed + d.discarded) && batch == Only(b.entries, d.flushed)
    ensures IsOldest(entries, hasOldest, oldest) && Parts(b.entries, batch, entries)
  {
    assert d.flushed + d.discarded - {} == d.flushed + d.discarded && d.flushed - {} == d.flushed;
    assert b.entries - d.flushed - d.discarded - {} == b.entries - (d.flushed + d.discarded);
  }
}
