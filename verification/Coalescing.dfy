/** Merging a stream of changes into one entry per key loses nothing (pkg/applier/buffer.go, entry.go). */
module Coalescing {
  import opened Options
  import opened Rows
  import opened Entries

  // ------------------------------------------------------- what merged entries say

  /** The key whose shadow row an image's markers stand for. */
  function Origin(k: Key, e: Entry): (r: Key)
    requires e.Image?
  {
    if e.oldKey.Some? then e.oldKey.value else k
  }

  /** One column of an image read over the table `s`: the image's own value, or for a marker the value
      in the origin's row. */
  function ReadCell(s: Table, k: Key, e: Entry, c: Name): (r: Option<Value>)
    requires e.Image?
  {
    if c in e.columns && e.columns[c].Has? then Some(e.columns[c].value)
    else if Origin(k, e) in s && c in s[Origin(k, e)] then Some(s[Origin(k, e)][c])
    else None
  }

  /** What a buffer says the table is, read over the table its changes started from. */
  function Merged(decoded: set<Name>, s: Table, b: Buf): (r: Table)
  {
    map k | k in s.Keys + b.entries.Keys && !IsDelete(Find(b, k)) ::
      if k in b.entries
      then (map c | c in decoded && ReadCell(s, k, b.entries[k], c).Some? :: ReadCell(s, k, b.entries[k], c).value)
      else s[k]
  }

  /** Key by key, the buffer read over `s` is the table `t`. */
  ghost predicate StandsAt(decoded: set<Name>, s: Table, b: Buf, t: Table, k: Key)
  {
    if k !in b.entries then RowAt(t, k) == RowAt(s, k)
    else if b.entries[k].DeleteMarker? then k !in t
    else k in t && t[k].Keys == decoded && forall c :: c in decoded ==> ReadCell(s, k, b.entries[k], c) == Some(t[k][c])
  }

  ghost predicate Stands(decoded: set<Name>, s: Table, b: Buf, t: Table)
  {
    forall k :: StandsAt(decoded, s, b, t, k)
  }

  lemma MergedIs(decoded: set<Name>, s: Table, b: Buf, t: Table)
    requires Stands(decoded, s, b, t)
    ensures Merged(decoded, s, b) == t
  {
    var m := Merged(decoded, s, b);
    forall k ensures k in m <==> k in t {
      assert StandsAt(decoded, s, b, t, k);
      assert k in s <==> RowAt(s, k).Some?;
      assert k in t <==> RowAt(t, k).Some?;
    }
    forall k | k in m ensures m[k] == t[k] {
      assert StandsAt(decoded, s, b, t, k);
      assert k in s ==> RowAt(s, k) == Some(s[k]);
      assert RowAt(t, k) == Some(t[k]);
    }
  }

  // ------------------------------------------------------- one change

  lemma MarkingStands(decoded: set<Name>, s: Table, b: Buf, t: Table, key: Key, mover: Option<Key>, k: Key)
    requires StandsAt(decoded, s, b, t, k)
    ensures StandsAt(decoded, s, MarkReused(b, key, mover), t, k)
  {
  }

  /** Overlaying an image's columns reads as patching the row it stands for. */
  lemma OverlayPatches(s: Table, k: Key, e: Entry, k': Key, e': Entry, row: Row, cols: Columns, c: Name)
    requires e.Image? && e'.Image? && Origin(k, e) == Origin(k', e') && e'.columns == Overlay(e.columns, cols)
    requires c in row && ReadCell(s, k, e, c) == Some(row[c])
    ensures ReadCell(s, k', e', c) == Some(Patch(row, cols)[c])
  {
  }

  lemma InsertStands(decoded: set<Name>, s: Table, b: Buf, t: Table, ev: ChangeEvent, row: Row)
    requires Stands(decoded, s, b, t) && Legal(decoded, t, Insert(ev.key, row)) && ev.columns == Carry(row)
    ensures Entries.AddInsert(b, ev).Some? && Stands(decoded, s, Entries.AddInsert(b, ev).value, t[ev.key := row])
  {
    assert StandsAt(decoded, s, b, t, ev.key);
    var b', t' := AddInsert(b, ev).value, t[ev.key := row];
    forall k ensures StandsAt(decoded, s, b', t', k) {
      assert StandsAt(decoded, s, b, t, k);
      MarkingStands(decoded, s, b, t, ev.key, None, k);
    }
  }

  lemma UpdateStands(decoded: set<Name>, s: Table, b: Buf, t: Table, ev: ChangeEvent)
    requires Stands(decoded, s, b, t) && Legal(decoded, t, Update(ev.key, ev.columns)) && t[ev.key].Keys == decoded
    ensures Entries.AddUpdate(b, ev).Some?
    ensures Stands(decoded, s, Entries.AddUpdate(b, ev).value, t[ev.key := Patch(t[ev.key], ev.columns)])
  {
    assert StandsAt(decoded, s, b, t, ev.key);
    var b', row := AddUpdate(b, ev).value, t[ev.key];
    var t' := t[ev.key := Patch(row, ev.columns)];
    forall k ensures StandsAt(decoded, s, b', t', k) {
      assert StandsAt(decoded, s, b, t, k);
      MarkingStands(decoded, s, b, t, ev.key, None, k);
      if k == ev.key && k in b.entries {
        forall c | c in decoded ensures ReadCell(s, k, b'.entries[k], c) == Some(Patch(row, ev.columns)[c]) {
          OverlayPatches(s, k, b.entries[k], k, b'.entries[k], row, ev.columns, c);
        }
      }
    }
  }

  lemma DeleteStands(decoded: set<Name>, s: Table, b: Buf, t: Table, ev: ChangeEvent)
    requires Stands(decoded, s, b, t)
    ensures Stands(decoded, s, Entries.AddDelete(b, ev), t - {ev.key})
  {
    forall k ensures StandsAt(decoded, s, AddDelete(b, ev), t - {ev.key}, k) {
      assert StandsAt(decoded, s, b, t, k);
    }
  }

  lemma MovedReads(decoded: set<Name>, s: Table, b: Buf, t: Table, ev: ChangeEvent, o: Key)
    requires StandsAt(decoded, s, b, t, o) && o in t && t[o].Keys == decoded && !IsDelete(Find(b, o))
    ensures var e := MovedImage(ev, o, Find(b, ev.key), Find(b, o));
            forall c :: c in decoded ==> ReadCell(s, ev.key, e, c) == Some(Patch(t[o], ev.columns)[c])
  {
  }

  lemma MoveStands(decoded: set<Name>, s: Table, b: Buf, t: Table, ev: ChangeEvent, o: Key)
    requires Stands(decoded, s, b, t) && Legal(decoded, t, Move(o, ev.key, ev.columns)) && t[o].Keys == decoded
    ensures Entries.AddKeyMove(b, ev, o).Some?
    ensures Stands(decoded, s, Entries.AddKeyMove(b, ev, o).value, (t - {o})[ev.key := Patch(t[o], ev.columns)])
  {
    assert StandsAt(decoded, s, b, t, ev.key) && StandsAt(decoded, s, b, t, o);
    MovedReads(decoded, s, b, t, ev, o);
    var b', t' := AddKeyMove(b, ev, o).value, (t - {o})[ev.key := Patch(t[o], ev.columns)];
    var mover := if o in b.entries then Some(o) else None;
    forall k ensures StandsAt(decoded, s, b', t', k) {
      assert StandsAt(decoded, s, b, t, k);
      MarkingStands(decoded, s, b, t, ev.key, mover, k);
    }
  }

  /** One change the source can make is never refused, and the buffer goes on standing for the table. */
  lemma AddStands(decoded: set<Name>, s: Table, b: Buf, t: Table, ch: Change, delivered: nat, xid: nat)
    requires Stands(decoded, s, b, t) && Legal(decoded, t, ch) && forall k :: k in t ==> t[k].Keys == decoded
    ensures Add(b, Decode(ch, delivered, xid)).Some?
    ensures Stands(decoded, s, Add(b, Decode(ch, delivered, xid)).value, Apply(t, ch))
  {
    var ev := Decode(ch, delivered, xid);
    match ch
    case Insert(k, row) => InsertStands(decoded, s, b, t, ev, row);
    case Update(k, cols) => UpdateStands(decoded, s, b, t, ev);
    case Move(o, k, cols) => MoveStands(decoded, s, b, t, ev, o);
    case Delete(k) => DeleteStands(decoded, s, b, t, ev);
  }

  /** A buffered key whose row is there, or is gone, in the table the buffer stands for. */
  predicate KnownThere(b: Buf, t: Table, k: Key)
  {
    k in b.entries && k in t
  }

  predicate KnownGone(b: Buf, t: Table, k: Key)
  {
    k in b.entries && k !in t
  }

  /** A change is refused exactly when a buffered key denies it: an insert or a move onto a row that is there, an
      update or a move of a row that is gone. A delete is never refused. */
  lemma RefusesExactly(decoded: set<Name>, s: Table, b: Buf, t: Table, ch: Change, delivered: nat, xid: nat)
    requires Stands(decoded, s, b, t)
    ensures Add(b, Decode(ch, delivered, xid)).None? <==>
            match ch
            case Insert(k, _) => KnownThere(b, t, k)
            case Update(k, _) => KnownGone(b, t, k)
            case Move(o, k, _) => if o == k then KnownGone(b, t, k) else KnownThere(b, t, k) || KnownGone(b, t, o)
            case Delete(_) => false
  {
    match ch
    case Insert(k, _) => assert StandsAt(decoded, s, b, t, k);
    case Update(k, _) => assert StandsAt(decoded, s, b, t, k);
    case Move(o, k, _) => assert StandsAt(decoded, s, b, t, o) && StandsAt(decoded, s, b, t, k);
    case Delete(_) =>
  }

  /** An event of no known kind, and an insert that leaves a column out, are refused whatever is buffered. */
  lemma RefusesMalformed(b: Buf, ev: ChangeEvent)
    requires ev.kind.UnknownKind? || (ev.kind.InsertKind? && exists c :: c in ev.columns && !ev.columns[c].Has?)
    ensures Add(b, ev).None?
  {
  }

  /** An update of a buffered image changes that image's columns and transaction and nothing else: where the row
      came from, what it waits for, when it was first seen, and every other entry and completion stay. A column
      the update carries takes its value, and one it leaves out keeps what was there. */
  lemma UpdateInPlace(b: Buf, ev: ChangeEvent, c: Name)
    requires ev.kind.UpdateKind? && (ev.oldKey.None? || ev.oldKey == Some(ev.key)) && IsImage(Find(b, ev.key))
    ensures Add(b, ev).Some?
    ensures var e, b' := b.entries[ev.key], Add(b, ev).value;
            && ev.key in b'.entries && b'.entries[ev.key].Image?
            && b' == Buf(b.entries[ev.key := e.(columns := b'.entries[ev.key].columns, xid := ev.xid)], b.pending)
            && var now := b'.entries[ev.key].columns;
               && (c in now <==> c in e.columns || (c in ev.columns && ev.columns[c].Has?))
               && (c in ev.columns && ev.columns[c].Has? ==> now[c] == ev.columns[c])
               && (c in e.columns && (c !in ev.columns || !ev.columns[c].Has?) ==> now[c] == e.columns[c])
  {
  }

  /** What a release does to each key: a completion read at or below the passed position is taken out, and what it
      holds fills the columns its image has no value for; every other completion and every other entry stay. */
  lemma ReleaseLetsIn(b: Buf, passed: nat, k: Key, c: Name)
    requires k in b.entries && b.entries[k].Image? && c in b.entries[k].columns
    ensures var b' := Release(b, passed);
            && b'.entries.Keys == b.entries.Keys && b'.pending.Keys <= b.pending.Keys
            && (k in b'.pending <==> k in b.pending && passed < b.pending[k].readLSN)
            && (k in b'.pending ==> b'.pending[k] == b.pending[k])
            && (k !in b.pending || k in b'.pending ==> b'.entries[k] == b.entries[k])
            && b'.entries[k].Image? && b'.entries[k].(columns := b.entries[k].columns) == b.entries[k]
            && c in b'.entries[k].columns
            && (b.entries[k].columns[c].Has? ==> b'.entries[k].columns[c] == b.entries[k].columns[c])
            && (k in b.pending && k !in b'.pending && !b.entries[k].columns[c].Has? && c in b.pending[k].columns ==>
                b'.entries[k].columns[c] == b.pending[k].columns[c])
  {
  }

  // ------------------------------------------------------- a whole stream

  /** The first `n` changes merged into an empty buffer. */
  function Gather(log: seq<Change>, delivered: seq<nat>, xids: seq<nat>, n: nat): (r: Option<Buf>)
    requires n <= |log| == |delivered| == |xids|
  {
    if n == 0 then Some(EMPTY)
    else
      var b := Gather(log, delivered, xids, n - 1);
      if b.None? then None else Add(b.value, Decode(log[n - 1], delivered[n - 1], xids[n - 1]))
  }

  /** For every stream a source can produce, no event is refused, and the merged entries, each marker
      read from the row the table held at its origin when the stream began, give the same table as
      replaying the changes one by one. */
  lemma {:induction false} CoalescingPreservesMeaning(decoded: set<Name>, s: Table, log: seq<Change>,
                                                      delivered: seq<nat>, xids: seq<nat>, n: nat)
    requires LegalLog(decoded, s, log) && n <= |log| == |delivered| == |xids|
    ensures Gather(log, delivered, xids, n).Some?
    ensures Stands(decoded, s, Gather(log, delivered, xids, n).value, Src(s, log, n))
    ensures Merged(decoded, s, Gather(log, delivered, xids, n).value) == Src(s, log, n)
  {
    if n > 0 {
      CoalescingPreservesMeaning(decoded, s, log, delivered, xids, n - 1);
      RowShape(decoded, s, log, n - 1);
      assert LegalAt(decoded, s, log, n - 1);
      var b := Gather(log, delivered, xids, n - 1).value;
      AddStands(decoded, s, b, Src(s, log, n - 1), log[n - 1], delivered[n - 1], xids[n - 1]);
    }
    MergedIs(decoded, s, Gather(log, delivered, xids, n).value, Src(s, log, n));
  }
}
