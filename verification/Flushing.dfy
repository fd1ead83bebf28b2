/** What one flush does with each entry of its batch (pkg/applier/flusher.go, absent.go,
    flush_sql.go). */
module Flushing {
  import opened Options
  import opened Rows
  import opened Entries

  /** The writable columns the image carries no value for: a decoded marker, or a column never named. */
  function Missing(writable: set<Name>, cols: Columns): (r: set<Name>)
  {
    set c | c in writable && !(c in cols && cols[c].Has?)
  }

  /** Values read from a row for the named columns. */
  function Read(row: Row, names: set<Name>): (r: Columns)
  {
    map c | c in names && c in row :: Has(row[c])
  }

  datatype Fate = WriteDelete | WriteImage | Hold(completed: Columns) | Await | Refuse

  /** A moved image that still carries a marker must be completed before anything is written. */
  predicate CompletedFirst(e: Entry)
  {
    e.Image? && e.oldKey.Some? && HasMarker(e.columns)
  }

  predicate ChecksShadowRow(writable: set<Name>, e: Entry)
  {
    e.Image? && e.oldKey.None? && (e.absenceAwaited || Missing(writable, e.columns) != {})
  }

  /** What becomes of one entry, given the shadow the flush found and the source row it would read
      under the entry's key. */
  function FateOf(writable: set<Name>, shadow: Table, source: Option<Row>, k: Key, e: Entry): (r: Fate)
  {
    if e.DeleteMarker? then WriteDelete
    else if CompletedFirst(e) then
      var missing := Missing(writable, e.columns);
      if !e.oldKeyReused && e.oldKey.value in shadow then Hold(Read(shadow[e.oldKey.value], missing))
      else if source.Some? then Hold(Read(source.value, missing))
      else WriteDelete
    else if ChecksShadowRow(writable, e) && k !in shadow then
      if e.absenceAwaited then Refuse else Await
    else WriteImage
  }

  /** The row a written image leaves: an upsert when nothing is missing, else an update in place. */
  function WrittenRow(writable: set<Name>, shadow: Table, k: Key, cols: Columns): (r: Row)
  {
    if k in shadow then Patch(shadow[k], cols)
    else map c | c in writable && c in cols && cols[c].Has? :: cols[c].value
  }

  /** The columns the fallback fills in place from the image's own shadow row. */
  function FilledNames(writable: set<Name>, shadow: Table, k: Key, e: Entry): (r: set<Name>)
  {
    if e.Image? && e.oldKey.None? && HasMarker(e.columns) && k in shadow
    then set c | c in Missing(writable, e.columns) && c in shadow[k] else {}
  }

  /** The entry as a deferred flush leaves it in the batch it gives back. */
  function Refilled(writable: set<Name>, shadow: Table, k: Key, e: Entry): (r: Entry)
  {
    if e.Image? && e.oldKey.None? && HasMarker(e.columns) && k in shadow
    then e.(columns := Overlay(e.columns, Read(shadow[k], Missing(writable, e.columns)))) else e
  }
}
