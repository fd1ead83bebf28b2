/** Repairing chunks that differ: delete all, copy all, and start over when a copy collides
    (pkg/checksum/repair.go, recopy_retry.go). */
module Recopying {
  import opened Rows
  import opened Copying
  import opened Flusher

  predicate InAny(chunks: seq<ChunkRange>, k: Key)
  {
    exists i :: 0 <= i < |chunks| && Covers(chunks[i], k)
  }

  /** The shadow with the chunks' rows replaced by the source's. */
  function Replaced(source: Table, shadow: Table, chunks: seq<ChunkRange>): (r: Table)
  {
    map k | k in source.Keys + shadow.Keys && (if InAny(chunks, k) then k in source else k in shadow) ::
      if InAny(chunks, k) then source[k] else shadow[k]
  }

  /** The shadow when every chunk is cleared and the first `n` are copied. */
  function Partway(source: Table, shadow: Table, chunks: seq<ChunkRange>, n: nat): (r: Table)
    requires n <= |chunks|
  {
    map k | && k in source.Keys + shadow.Keys
            && (if InAny(chunks, k) then InAny(chunks[..n], k) && k in source else k in shadow) ::
      if InAny(chunks, k) then source[k] else shadow[k]
  }

  function Within(t: Table, chunk: ChunkRange): (r: set<Key>)
  {
    set k | k in t && Covers(chunk, k)
  }

  /** Clear every chunk. */
  method ClearAll(shadow: Table, chunks: seq<ChunkRange>) returns (t: Table)
    ensures t == map k | k in shadow && !InAny(chunks, k) :: shadow[k]
  {
    t := shadow;
    for i := 0 to |chunks|
      invariant t == map k | k in shadow && !InAny(chunks[..i], k) :: shadow[k]
    {
      forall k ensures InAny(chunks[..i + 1], k) <==> InAny(chunks[..i], k) || Covers(chunks[i], k) {
      }
      t := t - Within(t, chunks[i]);
    }
    assert chunks[..|chunks|] == chunks;
  }

  lemma AllCopied(source: Table, shadow: Table, chunks: seq<ChunkRange>)
    ensures Partway(source, shadow, chunks, |chunks|) == Replaced(source, shadow, chunks)
  {
  }

  /** The rows one chunk's copy adds: the source's in its range, where no row stands yet. */
  function Added(source: Table, t: Table, chunk: ChunkRange): (r: map<Key, Row>)
  {
    map k | k in source && Covers(chunk, k) && k !in t :: source[k]
  }

  lemma CopyNext(source: Table, shadow: Table, chunks: seq<ChunkRange>, n: nat)
    requires n < |chunks|
    ensures var t, t' := Partway(source, shadow, chunks, n), Partway(source, shadow, chunks, n + 1);
            var rows := Added(source, t, chunks[n]);
            t == t' - rows.Keys && forall k :: k in rows ==> k in t' && t'[k] == rows[k]
  {
    var t, t' := Partway(source, shadow, chunks, n), Partway(source, shadow, chunks, n + 1);
    var rows := Added(source, t, chunks[n]);
    forall k ensures (k in t <==> k in t' && k !in rows) && (k in t && k in t' ==> t[k] == t'[k])
      ensures k in rows ==> k in t' && t'[k] == rows[k]
    {
    }
    assert t == t' - rows.Keys;
  }

  /** One recopy, in a transaction of its own: delete every chunk's rows, then copy every chunk. It
      commits exactly when what it leaves breaks no constraint; a collision leaves the shadow alone. */
  method Recopy(conflicts: (Row, Row) -> bool, source: Table, shadow: Table, chunks: seq<ChunkRange>)
    returns (ok: bool, after: Table)
    requires Consistent(conflicts, shadow)
    ensures ok <==> Consistent(conflicts, Replaced(source, shadow, chunks))
    ensures after == if ok then Replaced(source, shadow, chunks) else shadow
  {
    var t := ClearAll(shadow, chunks);
    for i := 0 to |chunks|
      invariant t == Partway(source, shadow, chunks, i) && Consistent(conflicts, t)
    {
      CopyNext(source, shadow, chunks, i);
      var clear, t' := InsertRows(conflicts, t, Added(source, t, chunks[i]), Partway(source, shadow, chunks, i + 1));
      if !clear {
        PartialConflict(conflicts, source, shadow, chunks, i + 1);
        return false, shadow;
      }
      t := t';
    }
    AllCopied(source, shadow, chunks);
    return true, t;
  }

  lemma PartialConflict(conflicts: (Row, Row) -> bool, source: Table, shadow: Table, chunks: seq<ChunkRange>, n: nat)
    requires n <= |chunks| && !Consistent(conflicts, Partway(source, shadow, chunks, n))
    ensures !Consistent(conflicts, Replaced(source, shadow, chunks))
  {
    var t := Partway(source, shadow, chunks, n);
    var j, k :| j in t && k in t && j != k && conflicts(t[j], t[k]);
  }

  /** The chunks cover every key the shadow differs from the source at. */
  ghost predicate CoversDifferences(source: Table, shadow: Table, chunks: seq<ChunkRange>)
  {
    forall k :: !InAny(chunks, k) ==> RowAt(shadow, k) == RowAt(source, k)
  }

  /** When the chunks cover every difference, the recopy leaves the source, so it does not collide with a
      source that breaks no constraint; and it leaves the source only then. */
  lemma RecopyIsSource(conflicts: (Row, Row) -> bool, source: Table, shadow: Table, chunks: seq<ChunkRange>)
    ensures CoversDifferences(source, shadow, chunks) <==> Replaced(source, shadow, chunks) == source
    ensures CoversDifferences(source, shadow, chunks) && Consistent(conflicts, source) ==>
              Consistent(conflicts, Replaced(source, shadow, chunks))
  {
  }
}
