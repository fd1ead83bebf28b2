/** Clearing the shadow above the resume watermark, batch by batch (pkg/copier/resume.go). */
module Resuming {
  import opened Rows
  import opened Copying
  import opened Draining

  /** The shadow's keys at or above `lower`. */
  function Above(t: Table, lower: int): (r: set<Key>)
  {
    set k | k in t && lower <= k
  }

  /** Delete up to `limit` rows at or above `lower`, whichever they are. */
  method ClearBatch(t: Table, lower: int, limit: nat) returns (t': Table, removed: nat)
    ensures removed <= limit && (removed < limit ==> Above(t', lower) == {})
    ensures Above(t', lower) <= Above(t, lower) && |Above(t', lower)| + removed == |Above(t, lower)|
    ensures t' == t - (Above(t, lower) - Above(t', lower))
  {
    t', removed := t, 0;
    assert t - {} == t;
    while removed < limit && Above(t', lower) != {}
      invariant removed <= limit
      invariant Above(t', lower) <= Above(t, lower) && |Above(t', lower)| + removed == |Above(t, lower)|
      invariant t' == t - (Above(t, lower) - Above(t', lower))
      decreases limit - removed
    {
      AnyKey(Above(t', lower));
      var k: Key :| k in Above(t', lower);
      ghost var before := Above(t', lower);
      t', removed := t' - {k}, removed + 1;
      assert Above(t', lower) == before - {k};
      assert Above(t, lower) - Above(t', lower) == Above(t, lower) - before + {k};
    }
  }

  /** Clear the shadow above the watermark a resumed copy starts from: what is left is every row the
      watermark reaches, untouched, and no other, so the clear and the chunker agree on what is uncut. */
  method ClearAbove(shadow: Table, from: Watermark, batch: nat) returns (t: Table)
    requires batch >= 1 && forall k :: k in shadow ==> MIN_KEY <= k <= MAX_KEY
    ensures t == map k | k in shadow && from.Reaches(k) :: shadow[k]
  {
    t := shadow;
    var (lower, done) := StartAfter(from);
    if done {
      assert t == map k | k in shadow && from.Reaches(k) :: shadow[k];
      return;
    }
    var removed := batch;
    assert shadow - {} == shadow;
    while removed == batch
      invariant removed <= batch
      invariant Above(t, lower) <= Above(shadow, lower) && t == shadow - (Above(shadow, lower) - Above(t, lower))
      invariant removed < batch ==> Above(t, lower) == {}
      decreases |Above(t, lower)|, removed
    {
      ghost var before := t;
      t, removed := ClearBatch(t, lower, batch);
      assert Above(shadow, lower) - Above(t, lower) ==
        (Above(shadow, lower) - Above(before, lower)) + (Above(before, lower) - Above(t, lower));
    }
    assert forall k :: k in shadow ==> (from.Reaches(k) <==> k !in Above(shadow, lower));
  }
}
