/** What every step of the protocol keeps. */
module Invariant {
  import opened Options
  import opened Rows
  import opened Entries
  import opened Protocol

  /** The first change to `k` that is neither in the shadow nor waived: the one its entry starts
      with, or the next one the stream will deliver. */
  function First(s: State, k: Key): (r: nat)
  {
    if k in s.notes then s.notes[k].first else s.delivered
  }

  function FilledIn(s: State, k: Key): (r: set<Name>)
  {
    if k in s.notes then s.notes[k].filled else {}
  }

  /** Column `c` of the row at `k` had value `v` after `y` changes. */
  ghost predicate HadValue(h: History, k: Key, c: Name, v: Value, y: nat)
  {
    y <= |h.log| && At(h, y, k).Some? && c in At(h, y, k).value && At(h, y, k).value[c] == v
  }

  ghost predicate HadBetween(h: History, k: Key, c: Name, v: Value, lo: nat, hi: nat)
  {
    exists y :: lo <= y <= hi && HadValue(h, k, c, v, y)
  }

  /** The shadow row converges on the source's: replaying the key's changes in `[x, n)` over it ends
      in the source row at `n` (see TracksReplays). */
  ghost predicate Tracks(h: History, row: Option<Row>, k: Key, x: nat, n: nat)
    requires n <= |h.log|
  {
    || Reset(h, k, x, n)
    || (&& row.Some? == At(h, n, k).Some?
        && (row.Some? ==> forall c :: c in h.writable ==>
              Patched(h, k, c, x, n) || HadValue(h, k, c, if c in row.value then row.value[c] else Null, n)))
  }

  /** Every value in the shadow row is one the source showed under the key at `x` or later. */
  ghost predicate Mixes(h: History, row: Option<Row>, k: Key, x: nat, n: nat)
  {
    row.Some? ==>
      && row.value.Keys == h.writable
      && forall c :: c in h.writable ==> HadBetween(h, k, c, row.value[c], x, n)
  }

  ghost predicate Bounds(h: History, s: State)
  {
    && s.resume <= s.position <= s.delivered <= s.now <= |h.log|
    && s.confirmed <= s.resume
    && s.notes.Keys == s.buf.entries.Keys
    && s.buf.pending.Keys <= s.buf.entries.Keys
    && forall k :: s.seen(k) <= s.now
  }

  ghost predicate KeyInv(h: History, s: State, k: Key)
    requires s.now <= |h.log|
  {
    && Quiet(h, k, s.seen(k), First(s, k))
    && match s.phase(k)
       case Uncut => k !in s.shadow
       case Claimed(since) => k !in s.shadow && since <= s.seen(k) && Quiet(h, k, since, First(s, k))
       case _ => Tracks(h, RowAt(s.shadow, k), k, First(s, k), s.now) &&
                 Mixes(h, RowAt(s.shadow, k), k, First(s, k), s.now)
  }

  /** No event buffered for the key said what the column's value is. */
  predicate Unsaid(e: Entry, filled: set<Name>, c: Name)
    requires e.Image?
  {
    c in e.columns && (e.columns[c].Marker? || c in filled)
  }

  /** The entry agrees with the source at the last delivered change. */
  ghost predicate Truthful(h: History, d: nat, k: Key, e: Entry, first: nat, filled: set<Name>)
    requires d <= |h.log|
  {
    match e
    case DeleteMarker(_, _) => At(h, d, k).None? && filled == {}
    case Image(oldKey, _, _, columns, _, _) =>
      && At(h, d, k).Some? && columns.Keys == h.decoded
      && (forall c :: c in columns && columns[c].Has? && c !in filled ==>
            HadValue(h, k, c, columns[c].value, d))
      && filled <= h.writable
      && (filled != {} ==> oldKey.None?)
      && (oldKey.None? ==> forall c :: Unsaid(e, filled, c) ==>
            !Reset(h, k, first, d) && !Patched(h, k, c, first, d))
  }

  /** A column filled in place still equals the shadow's. */
  ghost predicate FilledFromShadow(s: State, k: Key, e: Entry)
  {
    FilledIn(s, k) != {} ==>
      && k in s.shadow && e.Image?
      && forall c :: c in FilledIn(s, k) ==>
           c in e.columns && c in s.shadow[k] && e.columns[c] == Has(s.shadow[k][c])
  }

  /** The latest change merged into the entry carries its transaction. */
  ghost predicate Stamped(h: History, d: nat, k: Key, e: Entry)
    requires |h.xids| == |h.log|
  {
    exists i :: 0 <= i < d && i < |h.log| && StampedBy(h, d, k, e, i)
  }

  ghost predicate StampedBy(h: History, d: nat, k: Key, e: Entry, i: nat)
    requires i < |h.log| == |h.xids|
  {
    Touches(h.log[i], k) && e.xid == h.xids[i] && Quiet(h, k, i + 1, d)
  }

  predicate Marked(e: Entry, c: Name)
  {
    e.Image? && c in e.columns && e.columns[c].Marker?
  }

  /** A marker of a moved image stands for the value the origin's shadow row holds, unless that row
      is a later one the stream has yet to announce. */
  ghost predicate OriginOK(h: History, s: State, k: Key, e: Entry)
    requires s.delivered <= |h.log|
  {
    e.Image? && e.oldKey.Some? && !e.oldKeyReused ==>
      var o := e.oldKey.value;
      && (o != k ==> At(h, s.delivered, o).None?)
      && (o in s.shadow ==> forall c :: c in h.writable && Marked(e, c) && c in s.shadow[o] ==>
            || HadValue(h, k, c, s.shadow[o][c], s.delivered)
            || HadBetween(h, o, c, s.shadow[o][c], s.delivered + 1, s.now))
      && (o in s.notes ==> forall c, y ::
            (c in h.writable && Marked(e, c) && s.notes[o].first <= y <= s.delivered && At(h, y, o).Some?) ==>
              SameValue(h, c, y, o, s.delivered, k))
  }

  ghost predicate SameValue(h: History, c: Name, y: nat, o: Key, d: nat, k: Key)
  {
    && y <= |h.log| && d <= |h.log|
    && At(h, y, o).Some? && At(h, d, k).Some?
    && c in At(h, y, o).value && c in At(h, d, k).value
    && At(h, y, o).value[c] == At(h, d, k).value[c]
  }

  /** A pending completion is right, or the stream is about to drop it or overwrite it. */
  ghost predicate PendingOK(h: History, s: State, k: Key, e: Entry, p: Completion)
  {
    && e.Image? && p.readLSN <= s.now
    && p.columns.Keys <= h.writable
    && AllPresent(p.columns)
    && forall c :: c in p.columns && Marked(e, c) ==>
         || HadValue(h, k, c, p.columns[c].value, s.delivered)
         || HadBetween(h, k, c, p.columns[c].value, s.delivered + 1, p.readLSN)
         || (e.oldKey.Some? && !e.oldKeyReused &&
             HadBetween(h, e.oldKey.value, c, p.columns[c].value, s.delivered + 1, p.readLSN))
  }

  /** An image that waits out an absent row is pending, and the change that explains the absence
      comes before the position it waits for. */
  ghost predicate AwaitOK(h: History, s: State, k: Key, e: Entry)
  {
    e.Image? && e.absenceAwaited ==>
      && e.oldKey.None?
      && k in s.buf.pending && Reset(h, k, s.delivered, s.buf.pending[k].readLSN)
  }

  ghost predicate EntryInv(h: History, s: State, k: Key)
    requires |h.xids| == |h.log| && s.delivered <= |h.log|
    requires k in s.buf.entries && k in s.notes
  {
    var e := s.buf.entries[k];
    && s.notes[k].first < s.delivered
    && s.resume <= e.firstLSN <= s.notes[k].first
    && Truthful(h, s.delivered, k, e, s.notes[k].first, s.notes[k].filled)
    && FilledFromShadow(s, k, e)
    && Stamped(h, s.delivered, k, e)
    && OriginOK(h, s, k, e)
    && (k in s.buf.pending ==> PendingOK(h, s, k, e, s.buf.pending[k]))
    && AwaitOK(h, s, k, e)
  }

  /** A drained key has landed, waits for nothing, and every change its entry holds is visible. */
  ghost predicate BatchInv(h: History, s: State)
  {
    s.batch.Some? ==>
      forall k :: k in s.batch.value.keys ==>
        && k in s.buf.entries && k !in s.buf.pending
        && s.phase(k).Landed?
        && s.batch.value.since(k) <= s.seen(k)
        && Quiet(h, k, s.batch.value.since(k), s.delivered)
  }

  ghost predicate Inv(h: History, s: State)
    requires |h.xids| == |h.log|
  {
    && Bounds(h, s)
    && (forall k :: KeyInv(h, s, k))
    && (forall k :: k in s.buf.entries ==> EntryInv(h, s, k))
    && BatchInv(h, s)
  }
}
