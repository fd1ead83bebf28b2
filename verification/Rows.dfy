/** Rows, decoded columns and the source's committed history: what every other module speaks about.

    A decoded column either carries a value (`Has`, a SQL NULL included) or is the unchanged-TOAST
    marker. The source is a base table and the changes that committed after it, in commit order; the
    state of the source is looked at per key, as the row `At(h, n, k)` that key `k` holds after the
    first `n` changes. */
module Rows {

  import opened Options

  type Key = int
  type Name = string
  datatype Value = Null | Text(text: string)
  datatype Cell = Marker | Has(value: Value)
  type Columns = map<Name, Cell>
  type Row = map<Name, Value>
  type Table = map<Key, Row>

  predicate HasMarker(cols: Columns)
  {
    exists c :: c in cols && cols[c].Marker?
  }

  predicate AllPresent(cols: Columns)
  {
    forall c :: c in cols ==> cols[c].Has?
  }

  /** The present columns of `over` win; a name the image does not hold yet is appended. */
  function Overlay(cols: Columns, over: Columns): (r: Columns)
  {
    map c | c in cols.Keys + over.Keys && (c in cols || over[c].Has?) ::
      if c in over && over[c].Has? then over[c] else cols[c]
  }

  /** A present column of `from` fills a marker, or a missing name, and never replaces a value. */
  function Fill(cols: Columns, from: Columns): (r: Columns)
  {
    map c | c in cols.Keys + from.Keys && (c in cols || from[c].Has?) ::
      if c in cols && cols[c].Has? then cols[c]
      else if c in from && from[c].Has? then from[c] else cols[c]
  }

  /** The row a marker-tolerant write leaves: present columns assigned, the others kept. */
  function Patch(row: Row, cols: Columns): (r: Row)
  {
    map c | c in row :: if c in cols && cols[c].Has? then cols[c].value else row[c]
  }

  function Carry(row: Row): (r: Columns)
  {
    map c | c in row :: Has(row[c])
  }

  function Project(row: Row, names: set<Name>): (r: Row)
  {
    map c | c in row && c in names :: row[c]
  }

  /** One committed row change of the source. A marker in `cols` means the stored value is unchanged. */
  datatype Change =
    | Insert(key: Key, row: Row)
    | Update(key: Key, cols: Columns)
    | Move(oldKey: Key, key: Key, cols: Columns)
    | Delete(key: Key)

  predicate Touches(ch: Change, k: Key)
  {
    ch.key == k || (ch.Move? && ch.oldKey == k)
  }

  /** The change puts a row at `k` or takes one away; an in-place UPDATE does neither. */
  predicate Resets(ch: Change, k: Key)
  {
    Touches(ch, k) && !ch.Update?
  }

  /** The change puts a row at its key that was not there. */
  predicate Arrives(ch: Change)
  {
    ch.Insert? || ch.Move?
  }

  predicate Patches(ch: Change, k: Key, c: Name)
  {
    ch.Update? && ch.key == k && c in ch.cols && ch.cols[c].Has?
  }

  function Apply(t: Table, ch: Change): (r: Table)
  {
    match ch
    case Insert(k, row) => t[k := row]
    case Update(k, cols) => if k in t then t[k := Patch(t[k], cols)] else t
    case Move(o, k, cols) => if o in t then (t - {o})[k := Patch(t[o], cols)] else t
    case Delete(k) => t - {k}
  }

  /** What the source can do next: one row per key, and every column named in every image. */
  predicate Legal(decoded: set<Name>, t: Table, ch: Change)
  {
    match ch
    case Insert(k, row) => k !in t && row.Keys == decoded
    case Update(k, cols) => k in t && cols.Keys == decoded
    case Move(o, k, cols) => o != k && o in t && k !in t && cols.Keys == decoded
    case Delete(k) => k in t
  }

  /** The source after the first `n` changes. */
  function Src(base: Table, log: seq<Change>, n: nat): (r: Table)
    requires n <= |log|
  {
    if n == 0 then base else Apply(Src(base, log, n - 1), log[n - 1])
  }

  ghost predicate LegalLog(decoded: set<Name>, base: Table, log: seq<Change>)
  {
    && (forall k :: k in base ==> base[k].Keys == decoded)
    && (forall i :: 0 <= i < |log| ==> LegalAt(decoded, base, log, i))
  }

  ghost predicate LegalAt(decoded: set<Name>, base: Table, log: seq<Change>, i: nat)
    requires i < |log|
  {
    Legal(decoded, Src(base, log, i), log[i])
  }

  /** Every row of every source state carries exactly the decoded columns. */
  lemma {:induction false} RowShape(decoded: set<Name>, base: Table, log: seq<Change>, n: nat)
    requires LegalLog(decoded, base, log) && n <= |log|
    ensures forall k :: k in Src(base, log, n) ==> Src(base, log, n)[k].Keys == decoded
  {
    if n > 0 {
      RowShape(decoded, base, log, n - 1);
      assert LegalAt(decoded, base, log, n - 1);
    }
  }

  function RowAt(t: Table, k: Key): (r: Option<Row>)
  {
    if k in t then Some(t[k]) else None
  }

  /** No two rows of the table conflict. */
  ghost predicate Consistent(conflicts: (Row, Row) -> bool, t: Table)
  {
    forall j, k :: j in t && k in t && j != k ==> !conflicts(t[j], t[k])
  }

  // ------------------------------------------------------- histories, key by key

  /** A source history: the columns the stream decodes, those the shadow also holds, which pairs of
      rows the shadow's unique indexes and exclusion constraints keep apart, every change with the
      transaction that made it, and the row each key holds after the first `n` changes. */
  datatype History = History(decoded: set<Name>, writable: set<Name>, conflicts: (Row, Row) -> bool,
                             log: seq<Change>, xids: seq<nat>, rows: (nat, Key) -> Option<Row>)

  function At(h: History, n: nat, k: Key): (r: Option<Row>)
  {
    h.rows(n, k)
  }

  /** Change `i` leads from the rows after `i` changes to the rows after `i + 1`. */
  ghost predicate Follows(h: History, i: nat)
    requires i < |h.log|
  {
    && (forall k :: !Touches(h.log[i], k) ==> At(h, i + 1, k) == At(h, i, k))
    && match h.log[i]
       case Insert(q, row) =>
         At(h, i, q).None? && At(h, i + 1, q) == Some(row) && row.Keys == h.decoded
       case Update(q, cols) =>
         At(h, i, q).Some? && At(h, i + 1, q) == Some(Patch(At(h, i, q).value, cols)) &&
         cols.Keys == h.decoded
       case Move(o, q, cols) =>
         o != q && At(h, i, o).Some? && At(h, i + 1, o).None? && At(h, i, q).None? &&
         At(h, i + 1, q) == Some(Patch(At(h, i, o).value, cols)) && cols.Keys == h.decoded
       case Delete(q) => At(h, i, q).Some? && At(h, i + 1, q).None?
  }

  /** Every row after `n` changes carries exactly the decoded columns. */
  ghost predicate Shaped(h: History, n: nat)
  {
    forall k :: At(h, n, k).Some? ==> At(h, n, k).value.Keys == h.decoded
  }

  ghost predicate LegalHistory(h: History)
  {
    && h.writable <= h.decoded
    && |h.xids| == |h.log|
    && (forall n :: 0 <= n <= |h.log| ==> Shaped(h, n))
    && (forall i :: 0 <= i < |h.log| ==> Follows(h, i))
  }

  /** The history of a table under a log of changes. */
  function HistoryOf(decoded: set<Name>, writable: set<Name>, conflicts: (Row, Row) -> bool,
                     base: Table, log: seq<Change>, xids: seq<nat>): (r: History)
  {
    History(decoded, writable, conflicts, log, xids,
            (n: nat, k: Key) => if n <= |log| then RowAt(Src(base, log, n), k) else None)
  }

  /** Every log the source can commit from a base table is a legal history: nothing is lost by
      speaking of rows key by key. */
  lemma HistoryIsLegal(decoded: set<Name>, writable: set<Name>, conflicts: (Row, Row) -> bool,
                       base: Table, log: seq<Change>, xids: seq<nat>)
    requires LegalLog(decoded, base, log) && writable <= decoded && |xids| == |log|
    ensures LegalHistory(HistoryOf(decoded, writable, conflicts, base, log, xids))
  {
    var h := HistoryOf(decoded, writable, conflicts, base, log, xids);
    forall n | 0 <= n <= |h.log| ensures Shaped(h, n) {
      RowShape(decoded, base, log, n);
    }
    forall i | 0 <= i < |h.log| ensures Follows(h, i) {
      assert LegalAt(decoded, base, log, i);
    }
  }

  /** One committed change, seen from one key. */
  lemma AtStep(h: History, i: nat, k: Key)
    requires LegalHistory(h) && i < |h.log|
    ensures Follows(h, i)
    ensures At(h, i, k).Some? ==> At(h, i, k).value.Keys == h.decoded
    ensures At(h, i + 1, k).Some? ==> At(h, i + 1, k).value.Keys == h.decoded
    ensures !Touches(h.log[i], k) ==> At(h, i + 1, k) == At(h, i, k)
  {
    assert Shaped(h, i) && Shaped(h, i + 1) && Follows(h, i);
  }

  lemma AtShape(h: History, n: nat, k: Key)
    requires LegalHistory(h) && n <= |h.log|
    ensures At(h, n, k).Some? ==> At(h, n, k).value.Keys == h.decoded
  {
    assert Shaped(h, n);
  }

  /** No change in `[a, b)` touches the key. */
  ghost predicate Quiet(h: History, k: Key, a: nat, b: nat)
  {
    forall i :: a <= i < b && i < |h.log| ==> !Touches(h.log[i], k)
  }

  /** Some change in `[a, b)` puts a row at the key or takes one away. */
  ghost predicate Reset(h: History, k: Key, a: nat, b: nat)
  {
    exists i :: a <= i < b && i < |h.log| && Resets(h.log[i], k)
  }

  /** Some UPDATE in `[a, b)` assigns column `c` of the key's row. */
  ghost predicate Patched(h: History, k: Key, c: Name, a: nat, b: nat)
  {
    exists i :: a <= i < b && i < |h.log| && Patches(h.log[i], k, c)
  }

  lemma {:induction false} QuietKeeps(h: History, k: Key, a: nat, b: nat)
    requires LegalHistory(h) && a <= b <= |h.log| && Quiet(h, k, a, b)
    ensures At(h, a, k) == At(h, b, k)
    decreases b - a
  {
    if a < b {
      AtStep(h, a, k);
      QuietKeeps(h, k, a + 1, b);
    }
  }

  /** Without a reset a key keeps its row, and every column no UPDATE assigned keeps its value. */
  lemma {:induction false} PatchOnly(h: History, k: Key, a: nat, b: nat)
    requires LegalHistory(h) && a <= b <= |h.log| && !Reset(h, k, a, b)
    ensures At(h, a, k).Some? == At(h, b, k).Some?
    ensures At(h, a, k).Some? ==>
              && At(h, a, k).value.Keys == At(h, b, k).value.Keys == h.decoded
              && forall c :: c in h.decoded && !Patched(h, k, c, a, b) ==>
                   At(h, a, k).value[c] == At(h, b, k).value[c]
    decreases b - a
  {
    AtShape(h, a, k);
    if a < b {
      AtStep(h, a, k);
      assert !Resets(h.log[a], k);
      assert !Reset(h, k, a + 1, b);
      PatchOnly(h, k, a + 1, b);
      if At(h, a, k).Some? {
        forall c | c in h.decoded && !Patched(h, k, c, a, b)
          ensures At(h, a, k).value[c] == At(h, b, k).value[c]
        {
          assert !Patches(h.log[a], k, c);
          assert !Patched(h, k, c, a + 1, b);
        }
      }
    }
  }

  /** The row one key shows readers through the shadow's columns. */
  function Shown(row: Option<Row>, names: set<Name>): (r: Option<Row>)
  {
    if row.Some? then Some(Project(row.value, names)) else None
  }
}
