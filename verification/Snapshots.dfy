/** Whether a snapshot of the source shows a transaction the stream numbers in 32 bits
    (pkg/applier/snapshot.go). */
module Snapshots {

  const EPOCH: int := 0x1_0000_0000
  const HALF: int := 0x8000_0000
  const WIDTH: int := 0x1_0000_0000_0000_0000

  type uint32 = x: int | 0 <= x < 0x1_0000_0000
  type uint64 = x: int | 0 <= x < 0x1_0000_0000_0000_0000

  datatype Snapshot = Snapshot(read: bool, all: bool, xmin: uint64, xmax: uint64, inProgress: set<uint64>)

  /** The low 32 bits of a difference, as a signed number. */
  function Signed(x: int): (r: int)
    ensures -HALF <= r < HALF && (r - x) % EPOCH == 0
  {
    var low := x % EPOCH;
    if low < HALF then low else low - EPOCH
  }

  /** The 64-bit id nearest `xmax` with these low bits; 64-bit addition wraps, and a distance below the
      first id stops at zero. */
  function Lift(xmax: uint64, xid: uint32): (r: uint64)
  {
    var distance := Signed(xid - xmax % EPOCH);
    if distance >= 0 then (xmax + distance) % WIDTH
    else if -distance > xmax then 0
    else xmax + distance
  }

  predicate Visible(s: Snapshot, xid: uint32)
  {
    if s.all then true
    else if !s.read then false
    else
      var full := Lift(s.xmax, xid);
      if full < s.xmin then true else full < s.xmax && full !in s.inProgress
  }

  /** What the snapshot says of a full 64-bit id. */
  predicate Shows(s: Snapshot, full: uint64)
  {
    full < s.xmin || (full < s.xmax && full !in s.inProgress)
  }

  predicate Near(xmax: uint64, full: uint64)
  {
    -HALF <= full - xmax < HALF
  }

  /** Numbers with the same low bits that lie less than an epoch apart are the same. */
  lemma OneInEpoch(a: int, b: int)
    requires (a - b) % EPOCH == 0 && -EPOCH < a - b < EPOCH
    ensures a == b
  {
  }

  /** While `xmax` is not within half an epoch of the largest 64-bit id, widening recovers exactly the
      ids within half an epoch of it. */
  lemma LiftIsExact(xmax: uint64, full: uint64)
    requires xmax + HALF <= WIDTH
    ensures Lift(xmax, full % EPOCH) == full <==> Near(xmax, full)
  {
    var d := Signed(full % EPOCH - xmax % EPOCH);
    if Near(xmax, full) {
      OneInEpoch(d, full - xmax);
    }
  }

  /** Within half an epoch, a 32-bit id is visible exactly when the 64-bit snapshot shows it; a snapshot that
      stands for everything shows every id, and one that was never read shows none. */
  lemma VisibleIsExact(s: Snapshot, full: uint64)
    requires s.xmax + HALF <= WIDTH && Near(s.xmax, full)
    ensures Visible(s, full % EPOCH) <==> s.all || (s.read && Shows(s, full))
  {
    LiftIsExact(s.xmax, full);
  }

  /** A snapshot the server can take after another: it has seen as many transactions, and of those the
      first one knew of, none is in progress that was not before. */
  predicate Later(s: Snapshot, s': Snapshot)
  {
    && s.xmax <= s'.xmax
    && forall x :: x in s'.inProgress && x < s.xmax ==> x in s.inProgress && s.xmin <= x
  }

  /** Visibility is kept from one snapshot to every later one, so what a drain lets go on the strength of
      a snapshot, every later read sees. */
  lemma VisibleIsKept(s: Snapshot, s': Snapshot, full: uint64)
    requires s.read && s'.read && !s.all && s.xmin <= s.xmax && Later(s, s')
    requires s'.xmax + HALF <= WIDTH && Near(s.xmax, full) && Near(s'.xmax, full)
    ensures Visible(s, full % EPOCH) ==> Visible(s', full % EPOCH)
  {
    VisibleIsExact(s, full);
    if !s'.all {
      VisibleIsExact(s', full);
    }
  }
}
