/** The copier: chunks cut, claimed, copied in passes and landed
    (pkg/copier/ledger.go, copier.go, cut.go, retry.go, copy_pending.go). */
module Copier {
  import opened Copying
  import opened Ledger

  // ------------------------------------------------------- the ledger in place

  class Book {
    var cut: Watermark
    var watermark: Watermark
    var next: int64
    var complete: bool
    var inFlight: seq<ChunkRange>
    var landed: seq<ChunkRange>
    var partial: map<ChunkRange, Partial>
    var rows: int

    function View(): (r: Books)
      reads this
    {
      Books(cut, watermark, next, complete, inFlight, landed, partial, rows)
    }

    constructor (from: Watermark)
      ensures View() == NewBooks(from)
    {
      cut, watermark := from, from;
      next, complete := StartAfter(from).0, StartAfter(from).1;
      inFlight, landed, partial, rows := [], [], map[], 0;
    }

    method Claim(chunk: ChunkRange) returns (ok: bool)
      modifies this
      ensures ok == StartsAtFrontier(old(View()), chunk)
      ensures View() == Ledger.Claim(old(View()), chunk)
    {
      if !StartsAtFrontier(View(), chunk) { return false; }
      inFlight := inFlight + [chunk];
      cut := Through(chunk.upper);
      return true;
    }

    method Settle(chunk: ChunkRange, total: int, pending: seq<int>) returns (ok: bool)
      modifies this`rows, this`partial
      ensures ok <==> chunk in inFlight && pending != []
      ensures View() == Ledger.Settle(old(View()), chunk, total, pending)
    {
      if chunk !in inFlight { return false; }
      if pending == [] { return false; }
      rows := rows + total - Owed(View(), chunk);
      partial := partial[chunk := Partial(total, pending)];
      return true;
    }

    method Land(chunk: ChunkRange, total: int) returns (ok: bool)
      modifies this
      ensures ok <==> chunk in old(inFlight)
      ensures View() == Ledger.Land(old(View()), chunk, total)
    {
      var i := Find(inFlight, chunk);
      if i == |inFlight| { return false; }
      inFlight := Without(inFlight, i);
      rows := rows + total - Owed(View(), chunk);
      partial := partial - {chunk};
      landed := landed + [chunk];
      Forward();
      return true;
    }

    method Forward()
      modifies this
      ensures View() == Advance(old(View()))
    {
      while !complete
        invariant Advance(View()) == Advance(old(View()))
        decreases !complete, |landed|
      {
        var i := IndexOf(landed, next);
        if i == |landed| { return; }
        var chunk := landed[i];
        landed := Without(landed, i);
        watermark := Through(chunk.upper);
        if chunk.upper == MAX_KEY {
          complete := true;
          return;
        }
        next := chunk.upper + 1;
      }
    }

    method Position() returns (pos: Copying.Position)
      ensures pos == Snapshot(View())
      ensures (forall c :: c in partial ==> Ascending(partial[c].pending)) ==>
                forall i :: 0 <= i < |pos.pending| ==> Ascending(pos.pending[i].keys)
    {
      var pending := [];
      var i := 0;
      while i < |inFlight|
        invariant 0 <= i <= |inFlight|
        invariant pending + PendingOf(inFlight[i..], partial) == PendingOf(inFlight, partial)
      {
        assert inFlight[i..][1..] == inFlight[i + 1..];
        if inFlight[i] in partial {
          pending := pending + [PendingKeys(inFlight[i], partial[inFlight[i]].pending)];
        }
        i := i + 1;
      }
      pos := Copying.Position(watermark, cut, inFlight, pending, rows);
      if forall c :: c in partial ==> Ascending(partial[c].pending) {
        SnapshotAscends(inFlight, partial);
      }
    }
  }

  // ------------------------------------------------------- progress only goes forward

  function Rank(s: KeyState): (r: nat)
  {
    match s
    case KeyUncut => 0
    case KeyInFlight => 1
    case KeyLanded => 2
  }

  function Standing(b: Books, key: int): (r: KeyState)
  {
    Classify(Snapshot(b), key)
  }

  /** A claim turns the keys of its chunk from uncut to in flight and leaves every other key alone. */
  lemma ClaimMovesForward(from: Watermark, b: Books, p: Past, chunk: ChunkRange, key: int)
    requires Exact(from, b, p) && StartsAtFrontier(b, chunk) && chunk.lower <= chunk.upper
    ensures Covers(chunk, key) ==> Standing(b, key) == KeyUncut && Standing(Ledger.Claim(b, chunk), key) == KeyInFlight
    ensures !Covers(chunk, key) && MIN_KEY <= key ==> Standing(Ledger.Claim(b, chunk), key) == Standing(b, key)
  {
    var b' := Ledger.Claim(b, chunk);
    ClaimIsInOrder(from, b, p, chunk);
    ClaimOwes(from, b, p, chunk, key);
    ClassifyIsExact(b, key);
    ClassifyIsExact(b', key);
  }

  lemma ClaimOwes(from: Watermark, b: Books, p: Past, chunk: ChunkRange, key: int)
    requires Exact(from, b, p) && StartsAtFrontier(b, chunk) && chunk.lower <= chunk.upper
    ensures (exists c :: Owes(Ledger.Claim(b, chunk), c, key)) <==> Covers(chunk, key) || exists c :: Owes(b, c, key)
    ensures (exists c :: Owes(b, c, key)) ==> b.cut.Reaches(key)
  {
    var b' := Ledger.Claim(b, chunk);
    if chunk in b.inFlight {
      BelowCut(from, b, p, chunk);
    }
    assert Owes(b', chunk, key) <==> Covers(chunk, key);
    if c :| Owes(b, c, key) {
      BelowCut(from, b, p, c);
      assert Owes(b', c, key);
    }
    if c :| Owes(b', c, key) && c != chunk {
      assert Owes(b, c, key);
    }
  }

  /** Settling a chunk lands exactly its keys that are no longer pending. */
  lemma SettleMovesForward(from: Watermark, b: Books, p: Past, chunk: ChunkRange, total: int, pending: seq<int>,
                           key: int)
    requires Exact(from, b, p) && chunk in b.inFlight && pending != []
    ensures Covers(chunk, key) ==>
              Standing(Ledger.Settle(b, chunk, total, pending), key) ==
                if key in pending then KeyInFlight else KeyLanded
    ensures !Covers(chunk, key) ==> Standing(Ledger.Settle(b, chunk, total, pending), key) == Standing(b, key)
  {
    var b' := Ledger.Settle(b, chunk, total, pending);
    BelowCut(from, b, p, chunk);
    ClassifyIsExact(b, key);
    ClassifyIsExact(b', key);
    if Covers(chunk, key) {
      forall c | Owes(b', c, key) ensures c == chunk {
        OneCovers(b, c, chunk, key);
      }
      assert Owes(b', chunk, key) <==> key in pending;
    } else {
      assert forall c :: Owes(b', c, key) <==> Owes(b, c, key);
    }
  }

  lemma OneCovers(b: Books, c: ChunkRange, d: ChunkRange, key: int)
    requires InOrder(b.inFlight) && c in b.inFlight && d in b.inFlight && Covers(c, key) && Covers(d, key)
    ensures c == d
  {
  }

  /** Advancing the watermark changes no key's standing. */
  lemma {:induction false} AdvanceKeepsStanding(b: Books)
    ensures Advance(b).cut == b.cut && Advance(b).inFlight == b.inFlight && Advance(b).partial == b.partial
    ensures Advance(b).rows == b.rows
    decreases |b.landed|
  {
    var i := IndexOf(b.landed, b.next);
    if !b.complete && i < |b.landed| {
      AdvanceKeepsStanding(Pass(b, i));
    }
  }

  /** Landing a chunk lands all its keys and leaves every other key alone. */
  lemma LandMovesForward(from: Watermark, b: Books, p: Past, chunk: ChunkRange, total: int, key: int)
    requires Exact(from, b, p) && chunk in b.inFlight
    ensures Standing(Ledger.Land(b, chunk, total), key) == if Covers(chunk, key) then KeyLanded else Standing(b, key)
  {
    var b' := Ledger.Land(b, chunk, total);
    var p' := LandIsExact(from, b, p, chunk, total);
    AdvanceKeepsStanding(Waiting(b, Find(b.inFlight, chunk), total));
    BelowCut(from, b, p, chunk);
    LandOwes(from, b, p, chunk, total, key);
    ClassifyIsExact(b, key);
    ClassifyIsExact(b', key);
  }

  lemma LandOwes(from: Watermark, b: Books, p: Past, chunk: ChunkRange, total: int, key: int)
    requires Exact(from, b, p) && chunk in b.inFlight
    ensures (exists c :: Owes(Ledger.Land(b, chunk, total), c, key)) <==>
              !Covers(chunk, key) && exists c :: Owes(b, c, key)
  {
    var b' := Ledger.Land(b, chunk, total);
    AdvanceKeepsStanding(Waiting(b, Find(b.inFlight, chunk), total));
    if c :| Owes(b', c, key) {
      StillInFlight(from, b, p, chunk, total, c);
      assert Owes(b, c, key);
      if Covers(chunk, key) {
        OneCovers(b, c, chunk, key);
      }
    }
    if c :| Owes(b, c, key) && !Covers(chunk, key) {
      StillInFlight(from, b, p, chunk, total, c);
      assert Owes(b', c, key);
    }
  }

  /** A chunk leaves flight when it is landed and at no other time: whatever else lands, settles or is
      claimed, a worker finds the chunk it claimed still in flight, with what it has recorded. */
  lemma StillInFlight(from: Watermark, b: Books, p: Past, chunk: ChunkRange, total: int, other: ChunkRange)
    requires Exact(from, b, p) && chunk in b.inFlight
    ensures other in Ledger.Land(b, chunk, total).inFlight <==> other in b.inFlight && other != chunk
    ensures other != chunk ==> Owed(Ledger.Land(b, chunk, total), other) == Owed(b, other)
  {
    var i := Find(b.inFlight, chunk);
    AdvanceKeepsStanding(Waiting(b, i, total));
    Located(from, b, p, chunk);
    WithoutIs(b.inFlight, i);
    assert chunk !in multiset(Without(b.inFlight, i));
    assert chunk !in Without(b.inFlight, i);
  }

  // ------------------------------------------------------- every run of the ledger

  /** Keys as a settle lists them: ascending. */
  type KeyList = s: seq<int> | Ascending(s)

  datatype Event =
    | Claims(claimed: Chunk)
    | Settles(chunk: ChunkRange, total: int, pending: KeyList)
    | Lands(chunk: ChunkRange, total: int)

  function Do(b: Books, e: Event): (r: Books)
  {
    match e
    case Claims(chunk) => Ledger.Claim(b, chunk)
    case Settles(chunk, total, pending) => Ledger.Settle(b, chunk, total, pending)
    case Lands(chunk, total) => Ledger.Land(b, chunk, total)
  }

  function DoAll(from: Watermark, events: seq<Event>): (r: Books)
  {
    if events == [] then NewBooks(from) else Do(DoAll(from, events[..|events| - 1]), events[|events| - 1])
  }

  lemma DoIsExact(from: Watermark, b: Books, p: Past, e: Event) returns (p': Past)
    requires Exact(from, b, p)
    ensures Exact(from, Do(b, e), p')
  {
    p' := p;
    match e
    case Claims(chunk) =>
      if StartsAtFrontier(b, chunk) {
        ClaimIsExact(from, b, p, chunk);
        p' := Past(p.claimed + [chunk], p.passed, p.credit[chunk := 0]);
      }
    case Settles(chunk, total, pending) =>
      if chunk in b.inFlight && pending != [] {
        SettleIsExact(from, b, p, chunk, total, pending);
        p' := p.(credit := p.credit[chunk := total]);
      }
    case Lands(chunk, total) =>
      if chunk in b.inFlight {
        p' := LandIsExact(from, b, p, chunk, total);
      }
  }

  /** Whatever is claimed, settled and landed, in any order, refused or not, the ledger stays exact. */
  lemma {:induction false} LedgerHolds(from: Watermark, events: seq<Event>) returns (p: Past)
    ensures Exact(from, DoAll(from, events), p)
  {
    if events == [] {
      NewIsExact(from);
      p := Past([], 0, map[]);
    } else {
      var front := events[..|events| - 1];
      p := LedgerHolds(from, front);
      p := DoIsExact(from, DoAll(from, front), p, events[|events| - 1]);
    }
  }

  /** A pass that reads only the keys a chunk still owes cannot owe more of them. */
  predicate Narrows(b: Books, e: Event)
  {
    e.Settles? && e.chunk in b.partial ==> forall k :: k in e.pending ==> k in b.partial[e.chunk].pending
  }

  lemma DoMovesForward(from: Watermark, b: Books, p: Past, e: Event, key: int64)
    requires Exact(from, b, p) && Narrows(b, e)
    ensures Rank(Standing(b, key)) <= Rank(Standing(Do(b, e), key))
  {
    match e
    case Claims(chunk) =>
      if StartsAtFrontier(b, chunk) {
        ClaimMovesForward(from, b, p, chunk, key);
      }
    case Settles(chunk, total, pending) =>
      if chunk in b.inFlight && pending != [] {
        SettleMovesForward(from, b, p, chunk, total, pending, key);
        ClassifyIsExact(b, key);
        if Covers(chunk, key) && key in pending {
          BelowCut(from, b, p, chunk);
          assert Owes(b, chunk, key);
        }
      }
    case Lands(chunk, total) =>
      if chunk in b.inFlight {
        LandMovesForward(from, b, p, chunk, total, key);
      }
  }

  /** Every settle of the run narrows what its chunk owes. */
  ghost predicate AllNarrow(from: Watermark, events: seq<Event>)
  {
    forall i :: 0 <= i < |events| ==> Narrows(DoAll(from, events[..i]), events[i])
  }

  lemma FrontNarrows(from: Watermark, events: seq<Event>)
    requires AllNarrow(from, events) && events != []
    ensures AllNarrow(from, events[..|events| - 1])
    ensures Narrows(DoAll(from, events[..|events| - 1]), events[|events| - 1])
  {
    var front := events[..|events| - 1];
    forall i | 0 <= i < |front| ensures Narrows(DoAll(from, front[..i]), front[i]) {
      assert front[..i] == events[..i];
    }
  }

  /** Over a whole run a key only ever goes from uncut to in flight to landed. */
  lemma {:induction false} NeverBack(from: Watermark, events: seq<Event>, n: nat, key: int64)
    requires n <= |events| && AllNarrow(from, events)
    ensures Rank(Standing(DoAll(from, events[..n]), key)) <= Rank(Standing(DoAll(from, events), key))
    decreases |events|
  {
    if n == |events| {
      assert events[..n] == events;
    } else {
      var front, last := events[..|events| - 1], events[|events| - 1];
      assert front[..n] == events[..n];
      FrontNarrows(from, events);
      NeverBack(from, front, n, key);
      LastMovesForward(from, front, last, key);
    }
  }

  lemma LastMovesForward(from: Watermark, front: seq<Event>, last: Event, key: int64)
    requires Narrows(DoAll(from, front), last)
    ensures Rank(Standing(DoAll(from, front), key)) <= Rank(Standing(Do(DoAll(from, front), last), key))
  {
    var p := LedgerHolds(from, front);
    DoMovesForward(from, DoAll(from, front), p, last, key);
  }
}
