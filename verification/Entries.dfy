/** The change buffer as a value: one merged entry per key, the completions held images wait for,
    and what adding, holding, releasing and requeueing do to them (pkg/applier/buffer.go, hold.go,
    requeue.go). The class in Buffer.dfy is the mutable form of the same thing. */
module Entries {
  import opened Options
  import opened Rows

  datatype Kind = InsertKind | UpdateKind | DeleteKind | UnknownKind

  datatype ChangeEvent = ChangeEvent(kind: Kind, key: Key, oldKey: Option<Key>, columns: Columns,
                                     delivered: nat, xid: nat)

  /** The event the stream decodes a committed change into, stamped with the position it arrives at. */
  function Decode(ch: Change, delivered: nat, xid: nat): (r: ChangeEvent)
  {
    match ch
    case Insert(k, row) => ChangeEvent(InsertKind, k, None, Carry(row), delivered, xid)
    case Update(k, cols) => ChangeEvent(UpdateKind, k, None, cols, delivered, xid)
    case Move(o, k, cols) => ChangeEvent(UpdateKind, k, Some(o), cols, delivered, xid)
    case Delete(k) => ChangeEvent(DeleteKind, k, None, map[], delivered, xid)
  }

  datatype Entry =
    | Image(oldKey: Option<Key>, oldKeyReused: bool, absenceAwaited: bool, columns: Columns,
            firstLSN: nat, xid: nat)
    | DeleteMarker(firstLSN: nat, xid: nat)

  /** What a held image is waiting to take, and the position its read was made at. */
  datatype Completion = Completion(columns: Columns, readLSN: nat)

  datatype Buf = Buf(entries: map<Key, Entry>, pending: map<Key, Completion>)

  const EMPTY: Buf := Buf(map[], map[])

  /** `e` is the image of a row that left `key`. */
  predicate LeftKey(e: Entry, key: Key)
  {
    e.Image? && e.oldKey == Some(key)
  }

  /** Another row now stands at `key`: every image that left it, but the row arriving there itself,
      can no longer be completed from the key's shadow row. */
  function MarkReused(b: Buf, key: Key, mover: Option<Key>): (r: Buf)
  {
    Buf(map k | k in b.entries ::
          if LeftKey(b.entries[k], key) && mover != Some(k)
          then b.entries[k].(oldKeyReused := true) else b.entries[k],
        map k | k in b.pending && !(k in b.entries && LeftKey(b.entries[k], key) && mover != Some(k)) ::
          b.pending[k])
  }

  /** Store an entry; the write drops any completion pending under the key. */
  function Put(b: Buf, k: Key, e: Entry): (r: Buf)
  {
    Buf(b.entries[k := e], b.pending - {k})
  }

  function Find(b: Buf, k: Key): (r: Option<Entry>)
  {
    if k in b.entries then Some(b.entries[k]) else None
  }

  function Earlier(lsn: nat, replaced: Option<Entry>): (r: nat)
  {
    if replaced.Some? && replaced.value.firstLSN < lsn then replaced.value.firstLSN else lsn
  }

  predicate IsImage(e: Option<Entry>) { e.Some? && e.value.Image? }

  predicate IsDelete(e: Option<Entry>) { e.Some? && e.value.DeleteMarker? }

  function AddInsert(b: Buf, ev: ChangeEvent): (r: Option<Buf>)
  {
    var cur := Find(b, ev.key);
    if IsImage(cur) || !AllPresent(ev.columns) then None
    else Some(Put(MarkReused(b, ev.key, None), ev.key,
                  Image(None, false, false, ev.columns, Earlier(ev.delivered, cur), ev.xid)))
  }

  function AddUpdate(b: Buf, ev: ChangeEvent): (r: Option<Buf>)
  {
    var cur := Find(b, ev.key);
    if cur.None? then
      Some(Put(MarkReused(b, ev.key, None), ev.key,
               Image(None, false, false, ev.columns, ev.delivered, ev.xid)))
    else if IsDelete(cur) then None
    else Some(b.(entries := b.entries[ev.key :=
                   cur.value.(columns := Overlay(cur.value.columns, ev.columns), xid := ev.xid)]))
  }

  /** The image a key move enters at the new key: it starts from the old key's buffered image, and
      inherits that image's origin when it had itself moved. */
  function MovedImage(ev: ChangeEvent, oldKey: Key, cur: Option<Entry>, from: Option<Entry>): (r: Entry)
    requires from.Some? ==> from.value.Image?
  {
    var lsn := Earlier(Earlier(ev.delivered, cur), from);
    if from.None? then Image(Some(oldKey), false, false, ev.columns, lsn, ev.xid)
    else
      var columns := Overlay(from.value.columns, ev.columns);
      if from.value.oldKey.Some?
      then Image(from.value.oldKey, from.value.oldKeyReused, false, columns, lsn, ev.xid)
      else Image(Some(oldKey), false, false, columns, lsn, ev.xid)
  }

  function AddKeyMove(b: Buf, ev: ChangeEvent, oldKey: Key): (r: Option<Buf>)
  {
    var cur := Find(b, ev.key);
    var from := Find(b, oldKey);
    if IsImage(cur) || IsDelete(from) then None
    else
      var marked := MarkReused(b, ev.key, if from.Some? then Some(oldKey) else None);
      Some(Put(Put(marked, ev.key, MovedImage(ev, oldKey, cur, from)), oldKey,
               DeleteMarker(Earlier(ev.delivered, from), ev.xid)))
  }

  function AddDelete(b: Buf, ev: ChangeEvent): (r: Buf)
  {
    Put(b, ev.key, DeleteMarker(Earlier(ev.delivered, Find(b, ev.key)), ev.xid))
  }

  /** Merge one decoded change; `None` is the refusal of an event the source could not have made. */
  function Add(b: Buf, ev: ChangeEvent): (r: Option<Buf>)
  {
    match ev.kind
    case InsertKind => AddInsert(b, ev)
    case UpdateKind =>
      if ev.oldKey.Some? && ev.oldKey.value != ev.key then AddKeyMove(b, ev, ev.oldKey.value)
      else AddUpdate(b, ev)
    case DeleteKind => Some(AddDelete(b, ev))
    case UnknownKind => None
  }

  /** Let in every completion read at or below `passed`. */
  function Release(b: Buf, passed: nat): (r: Buf)
  {
    Buf(map k | k in b.entries ::
          if k in b.pending && b.pending[k].readLSN <= passed && b.entries[k].Image?
          then b.entries[k].(columns := Fill(b.entries[k].columns, b.pending[k].columns))
          else b.entries[k],
        map k | k in b.pending && b.pending[k].readLSN > passed :: b.pending[k])
  }
}
