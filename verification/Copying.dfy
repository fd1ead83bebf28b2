/** Cutting the key space into chunks and classifying keys against the copy
    (pkg/copier/types.go, chunker.go, position.go). */
module Copying {

  const MIN_KEY: int := -0x8000_0000_0000_0000
  const MAX_KEY: int := 0x7fff_ffff_ffff_ffff

  type int64 = x: int | -0x8000_0000_0000_0000 <= x <= 0x7fff_ffff_ffff_ffff

  datatype ChunkRange = ChunkRange(lower: int64, upper: int64, rows: int64)

  /** A closed range of keys; `rows` is the row count it was cut to, zero when nothing cut it. */
  type Chunk = c: ChunkRange | c.lower <= c.upper witness ChunkRange(0, 0, 0)

  predicate Covers(c: ChunkRange, k: int)
  {
    c.lower <= k <= c.upper
  }

  /** A frontier in the key space: nothing reached, or every key up to a value. */
  datatype Watermark = Unset | Through(value: int64)
  {
    predicate Complete() { Through? && value == MAX_KEY }

    predicate Reaches(k: int) { Through? && k <= value }
  }

  /** The first key above a frontier, or that there is none. */
  function StartAfter(from: Watermark): (r: (int64, bool))
    ensures r.1 <==> from.Complete()
    ensures !r.1 ==> forall k: int64 :: k >= r.0 <==> !from.Reaches(k)
  {
    if from.Unset? then (MIN_KEY, false)
    else if from.Complete() then (0, true)
    else (from.value + 1, false)
  }

  // ------------------------------------------------------- classifying a key

  datatype KeyState = KeyUncut | KeyInFlight | KeyLanded

  datatype PendingKeys = PendingKeys(chunk: ChunkRange, keys: seq<int>)

  datatype Position = Position(watermark: Watermark, cut: Watermark, inFlight: seq<ChunkRange>,
                               pending: seq<PendingKeys>, rowsInserted: int)

  predicate Ascending(keys: seq<int>)
  {
    forall i, j :: 0 <= i < j < |keys| ==> keys[i] < keys[j]
  }

  /** The search a sorted list of keys is answered by. */
  method BinarySearch(keys: seq<int>, key: int) returns (found: bool)
    requires Ascending(keys)
    ensures found <==> key in keys
  {
    var lo, hi := 0, |keys|;
    while lo < hi
      invariant 0 <= lo <= hi <= |keys|
      invariant forall i :: 0 <= i < lo ==> keys[i] < key
      invariant forall i :: hi <= i < |keys| ==> key <= keys[i]
    {
      var mid := (lo + hi) / 2;
      if keys[mid] < key { lo := mid + 1; } else { hi := mid; }
    }
    found := lo < |keys| && keys[lo] == key;
  }

  function ClassifyWithin(pending: seq<PendingKeys>, chunk: ChunkRange, key: int): (r: KeyState)
  {
    if pending == [] then KeyInFlight
    else if pending[0].chunk != chunk then ClassifyWithin(pending[1..], chunk, key)
    else if key in pending[0].keys then KeyInFlight else KeyLanded
  }

  function ClassifyAmong(inFlight: seq<ChunkRange>, pending: seq<PendingKeys>, key: int): (r: KeyState)
  {
    if inFlight == [] then KeyLanded
    else if Covers(inFlight[0], key) then ClassifyWithin(pending, inFlight[0], key)
    else ClassifyAmong(inFlight[1..], pending, key)
  }

  /** Where a key stands in a snapshot of the copy. */
  function Classify(p: Position, key: int): (r: KeyState)
  {
    if !p.cut.Reaches(key) then KeyUncut else ClassifyAmong(p.inFlight, p.pending, key)
  }

  /** Where a key stands inside a chunk in flight, its pending list searched. */
  method ClassifyInChunk(pending: seq<PendingKeys>, chunk: ChunkRange, key: int) returns (s: KeyState)
    requires forall i :: 0 <= i < |pending| ==> Ascending(pending[i].keys)
    ensures s == ClassifyWithin(pending, chunk, key)
  {
    for i := 0 to |pending|
      invariant ClassifyWithin(pending[i..], chunk, key) == ClassifyWithin(pending, chunk, key)
    {
      assert pending[i..][1..] == pending[i + 1..];
      if pending[i].chunk == chunk {
        var held := BinarySearch(pending[i].keys, key);
        return if held then KeyInFlight else KeyLanded;
      }
    }
    return KeyInFlight;
  }

  /** Where a key stands in a snapshot whose pending lists are ascending, as the ledger's are. */
  method ClassifyKey(p: Position, key: int) returns (s: KeyState)
    requires forall i :: 0 <= i < |p.pending| ==> Ascending(p.pending[i].keys)
    ensures s == Classify(p, key)
  {
    if !p.cut.Reaches(key) { return KeyUncut; }
    for i := 0 to |p.inFlight|
      invariant ClassifyAmong(p.inFlight[i..], p.pending, key) == ClassifyAmong(p.inFlight, p.pending, key)
    {
      assert p.inFlight[i..][1..] == p.inFlight[i + 1..];
      if Covers(p.inFlight[i], key) {
        s := ClassifyInChunk(p.pending, p.inFlight[i], key);
        return s;
      }
    }
    return KeyLanded;
  }

  lemma {:induction false} ClassifyAmongIs(inFlight: seq<ChunkRange>, pending: seq<PendingKeys>, key: int, i: nat)
    requires i < |inFlight| && Covers(inFlight[i], key)
    requires forall j :: 0 <= j < i ==> !Covers(inFlight[j], key)
    ensures ClassifyAmong(inFlight, pending, key) == ClassifyWithin(pending, inFlight[i], key)
  {
    if i > 0 {
      ClassifyAmongIs(inFlight[1..], pending, key, i - 1);
    }
  }

  lemma {:induction false} ClassifyAmongNone(inFlight: seq<ChunkRange>, pending: seq<PendingKeys>, key: int)
    requires forall j :: 0 <= j < |inFlight| ==> !Covers(inFlight[j], key)
    ensures ClassifyAmong(inFlight, pending, key) == KeyLanded
  {
    if inFlight != [] {
      ClassifyAmongNone(inFlight[1..], pending, key);
    }
  }

  // ------------------------------------------------------- chunk sizing

  /** Options as given: zero takes a default. The time is in nanoseconds. */
  datatype ChunkerOptions = ChunkerOptions(target: int, initialRows: int, minRows: int, maxRows: int)

  const DEFAULT_TARGET: int := 500_000_000
  const DEFAULT_INITIAL: int := 1000
  const DEFAULT_MIN: int := 100
  const DEFAULT_MAX: int := 100_000

  function Min(a: int, b: int): (r: int) { if a <= b then a else b }

  function Max(a: int, b: int): (r: int) { if a >= b then a else b }

  function WithDefaults(o: ChunkerOptions): (r: ChunkerOptions)
  {
    var target := if o.target == 0 then DEFAULT_TARGET else o.target;
    var minRows :=
      if o.minRows != 0 then o.minRows
      else
        var m := if o.maxRows > 0 then Min(DEFAULT_MIN, o.maxRows) else DEFAULT_MIN;
        if o.initialRows > 0 then Min(m, o.initialRows) else m;
    var maxRows :=
      if o.maxRows != 0 then o.maxRows
      else
        var m := Max(DEFAULT_MAX, minRows);
        if o.initialRows > 0 then Max(m, o.initialRows) else m;
    var initialRows :=
      if o.initialRows != 0 then o.initialRows
      else
        var i := if minRows > 0 then Max(DEFAULT_INITIAL, minRows) else DEFAULT_INITIAL;
        if maxRows > 0 then Min(i, maxRows) else i;
    ChunkerOptions(target, initialRows, minRows, maxRows)
  }

  predicate ValidOptions(o: ChunkerOptions)
  {
    && o.target > 0 && o.initialRows > 0 && o.minRows > 0 && o.maxRows > 0
    && o.minRows <= o.maxRows
    && o.minRows <= o.initialRows <= o.maxRows
  }

  /** The values the caller set are positive and agree with one another. */
  predicate GivenAgree(o: ChunkerOptions)
  {
    && o.target >= 0 && o.initialRows >= 0 && o.minRows >= 0 && o.maxRows >= 0
    && (o.minRows > 0 && o.maxRows > 0 ==> o.minRows <= o.maxRows)
    && (o.minRows > 0 && o.initialRows > 0 ==> o.minRows <= o.initialRows)
    && (o.maxRows > 0 && o.initialRows > 0 ==> o.initialRows <= o.maxRows)
  }

  /** The defaults never contradict what the caller set, and never hide a contradiction in it. */
  lemma DefaultsFit(o: ChunkerOptions)
    ensures ValidOptions(WithDefaults(o)) <==> GivenAgree(o)
    ensures var w := WithDefaults(o);
            && (o.target != 0 ==> w.target == o.target)
            && (o.initialRows != 0 ==> w.initialRows == o.initialRows)
            && (o.minRows != 0 ==> w.minRows == o.minRows)
            && (o.maxRows != 0 ==> w.maxRows == o.maxRows)
  {
  }
}
