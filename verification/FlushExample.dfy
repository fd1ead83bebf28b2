/** A flush that is refused although what it would leave breaks no constraint (pkg/applier/flusher.go). */
module FlushExample {
  import opened Options
  import opened Rows
  import opened Entries
  import opened Flushing
  import opened Flusher
  import opened ExampleRows

  const Z: Value := Text("z")

  /** The shadow holds one column, which is unique; the stream decodes another as well. */
  const HELD: set<Name> := {"a"}

  const BEFORE: Table := map[1 := map["a" := X], 2 := map["a" := Y]]
  const AFTER: Table := map[1 := map["a" := Y], 2 := map["a" := X], 3 := map["a" := Z]]

  /** Keys 1 and 2 swap their values; the row at key 3, which the shadow lacks, is updated without `b`. */
  const SWAP: map<Key, Entry> :=
    map[1 := Image(None, false, false, map["a" := Has(Y)], 0, 0),
        2 := Image(None, false, false, map["a" := Has(X)], 0, 0),
        3 := Image(None, false, false, map["a" := Has(Z), "b" := Marker], 0, 0)]

  /** No key of the batch has a row on the source that a completion could read. */
  function Nowhere(k: Key): (r: Option<Row>)
  {
    None
  }

  lemma Written(k: Key)
    requires k in SWAP
    ensures WrittenRow(HELD, BEFORE, k, SWAP[k].columns) == AFTER[k]
    ensures FateOf(HELD, BEFORE, None, k, SWAP[k]).WriteImage?
  {
    assert k == 1 || k == 2 || k == 3;
    assert Missing(HELD, SWAP[k].columns) == {};
  }

  lemma Planned()
    ensures Plan(HELD, BEFORE, Nowhere, SWAP) == SWAP
    ensures !AnyRefused(HELD, BEFORE, Nowhere, SWAP)
  {
    forall k | k in SWAP ensures FateOf(HELD, BEFORE, None, k, SWAP[k]).WriteImage? {
      Written(k);
    }
  }

  lemma Leaves()
    ensures After(HELD, BEFORE, SWAP) == AFTER
  {
    var after := After(HELD, BEFORE, SWAP);
    assert after.Keys == AFTER.Keys;
    forall k | k in AFTER ensures after[k] == AFTER[k] {
      Written(k);
    }
  }

  lemma BothConsistent()
    ensures Consistent(SameA, BEFORE) && Consistent(SameA, AFTER)
  {
    assert AFTER[1]["a"] == Y && AFTER[2]["a"] == X && AFTER[3]["a"] == Z;
  }

  lemma FirstCollides()
    ensures Clashes(SameA, HELD, BEFORE, SWAP, [1, 2, 3])
  {
    var t := AfterAllBut(HELD, BEFORE, SWAP, Waiting(SWAP, [1, 2, 3], 0));
    assert t == BEFORE;
    Written(1);
    assert 2 in t && SameA(AFTER[1], t[2]);
    assert Clash(SameA, HELD, BEFORE, SWAP, [1, 2, 3], 0);
  }

  lemma ThirdIsStray()
    ensures AnyStray(BEFORE, SWAP)
  {
    assert SWAP[3].columns["b"].Marker?;
    assert Stray(BEFORE, SWAP, 3);
  }

  lemma IsFair()
    ensures Named(HELD, BEFORE, SWAP) && Lists([1, 2, 3], SWAP)
  {
  }

  /** Two rows that swap a unique value make the column-wise writes collide, and the fallback stops at an
      update that carries the one column the shadow holds and omits another, under a key without a row: the
      flush is refused, and what it would leave breaks no constraint. */
  lemma OffShadowIsRefused() returns (plan: map<Key, Entry>)
    ensures Named(HELD, BEFORE, SWAP) && Consistent(SameA, BEFORE) && Lists([1, 2, 3], SWAP)
    ensures plan == Plan(HELD, BEFORE, Nowhere, SWAP) && Consistent(SameA, After(HELD, BEFORE, plan))
    ensures Verdict(AnyRefused(HELD, BEFORE, Nowhere, SWAP), Clashes(SameA, HELD, BEFORE, plan, [1, 2, 3]),
                    AnyStray(BEFORE, plan), true) == Failed
  {
    plan := SWAP;
    IsFair();
    Planned();
    Leaves();
    BothConsistent();
    FirstCollides();
    ThirdIsStray();
  }
}
