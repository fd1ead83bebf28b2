/** The chunker's cursor and the copier's ledger of claimed and landed chunks
    (pkg/copier/chunker.go, ledger.go, copier.go). Workers call these under one lock each, so an
    interleaving of workers is a sequence of these calls. */
module Ledger {
  import opened Options
  import opened Copying

  // ------------------------------------------------------- runs of consecutive chunks

  /** Chunk `i` starts where the one before it ends. */
  predicate Follows(chunks: seq<ChunkRange>, start: int, i: nat)
    requires i < |chunks|
  {
    && chunks[i].lower <= chunks[i].upper
    && chunks[i].lower == if i == 0 then start else chunks[i - 1].upper + 1
  }

  /** The chunks are consecutive and start at `start`. */
  predicate Consecutive(chunks: seq<ChunkRange>, start: int)
  {
    forall i :: 0 <= i < |chunks| ==> Follows(chunks, start, i)
  }

  /** The frontier after the first `n` chunks. */
  function Frontier(from: Watermark, chunks: seq<ChunkRange>, n: nat): (r: Watermark)
    requires n <= |chunks|
  {
    if n == 0 then from else Through(chunks[n - 1].upper)
  }

  lemma {:induction false} Ordered(chunks: seq<ChunkRange>, start: int, i: nat, j: nat)
    requires Consecutive(chunks, start) && i < j < |chunks|
    ensures start <= chunks[i].lower <= chunks[i].upper < chunks[j].lower <= chunks[j].upper
    decreases j
  {
    assert Follows(chunks, start, i) && Follows(chunks, start, j) && Follows(chunks, start, j - 1);
    if i > 0 {
      Ordered(chunks, start, i - 1, i);
    }
    if i + 1 < j {
      Ordered(chunks, start, i, j - 1);
    }
  }

  lemma ConsecutiveFront(chunks: seq<ChunkRange>, start: int, n: nat)
    requires Consecutive(chunks, start) && n <= |chunks|
    ensures Consecutive(chunks[..n], start)
  {
    forall i | 0 <= i < n ensures Follows(chunks[..n], start, i) {
      assert Follows(chunks, start, i);
    }
  }

  /** Every key between the start and the last chunk's end lies in exactly one chunk. */
  lemma {:induction false} Tiles(chunks: seq<ChunkRange>, start: int, key: int)
    requires Consecutive(chunks, start) && |chunks| > 0
    requires start <= key <= chunks[|chunks| - 1].upper
    ensures exists i :: 0 <= i < |chunks| && Covers(chunks[i], key)
    ensures forall i, j ::
              0 <= i < |chunks| && 0 <= j < |chunks| && Covers(chunks[i], key) && Covers(chunks[j], key) ==> i == j
  {
    var last := |chunks| - 1;
    assert Follows(chunks, start, last);
    if key < chunks[last].lower {
      var front := chunks[..last];
      ConsecutiveFront(chunks, start, last);
      Tiles(front, start, key);
      var i :| 0 <= i < |front| && Covers(front[i], key);
      assert Covers(chunks[i], key);
    } else {
      assert Covers(chunks[last], key);
    }
    forall i, j | 0 <= i < |chunks| && 0 <= j < |chunks| && Covers(chunks[i], key) && Covers(chunks[j], key)
      ensures i == j
    {
      if i < j { Ordered(chunks, start, i, j); }
      if j < i { Ordered(chunks, start, j, i); }
    }
  }

  lemma Extends(chunks: seq<ChunkRange>, start: int, chunk: ChunkRange)
    requires Consecutive(chunks, start) && chunk.lower <= chunk.upper
    requires chunk.lower == if chunks == [] then start else chunks[|chunks| - 1].upper + 1
    ensures Consecutive(chunks + [chunk], start)
  {
    var longer := chunks + [chunk];
    forall i | 0 <= i < |longer| ensures Follows(longer, start, i) {
      if i < |chunks| {
        assert Follows(chunks, start, i);
      }
    }
  }

  function Credit(credit: map<ChunkRange, int>, c: ChunkRange): (r: int)
  {
    if c in credit then credit[c] else 0
  }

  /** The rows recorded for a run of chunks. */
  function Total(chunks: seq<ChunkRange>, credit: map<ChunkRange, int>): (r: int)
  {
    if chunks == [] then 0
    else
      Total(chunks[..|chunks| - 1], credit) + Credit(credit, chunks[|chunks| - 1])
  }

  lemma {:induction false} TotalIgnores(chunks: seq<ChunkRange>, credit: map<ChunkRange, int>, c: ChunkRange, v: int)
    requires c !in chunks
    ensures Total(chunks, credit[c := v]) == Total(chunks, credit)
  {
    if chunks != [] {
      TotalIgnores(chunks[..|chunks| - 1], credit, c, v);
    }
  }

  /** Changing what one chunk is credited with changes the total by the difference. */
  lemma {:induction false} TotalUpdate(chunks: seq<ChunkRange>, start: int, credit: map<ChunkRange, int>,
                                       c: ChunkRange, v: int)
    requires Consecutive(chunks, start) && c in chunks
    ensures Total(chunks, credit[c := v]) == Total(chunks, credit) - Credit(credit, c) + v
  {
    var front, last := chunks[..|chunks| - 1], chunks[|chunks| - 1];
    if last == c {
      if c in front {
        var i :| 0 <= i < |front| && front[i] == c;
        Ordered(chunks, start, i, |chunks| - 1);
      }
      TotalIgnores(front, credit, c, v);
    } else {
      assert c in front;
      ConsecutiveFront(chunks, start, |chunks| - 1);
      TotalUpdate(front, start, credit, c, v);
    }
  }

  /** Taking one element out of a sequence. */
  function Without<T>(s: seq<T>, i: nat): (r: seq<T>)
    requires i < |s|
  {
    s[..i] + s[i + 1..]
  }

  lemma WithoutIs<T>(s: seq<T>, i: nat)
    requires i < |s|
    ensures multiset(Without(s, i)) == multiset(s) - multiset{s[i]}
    ensures forall x :: x in s <==> x in Without(s, i) || x == s[i]
  {
    assert s == s[..i] + [s[i]] + s[i + 1..];
    forall x ensures x in s <==> x in Without(s, i) || x == s[i] {
      assert x in s <==> x in s[..i] + [s[i]] + s[i + 1..];
    }
  }

  // ------------------------------------------------------- the chunker

  class Chunker {
    var next: int64
    var done: bool
    const from: Watermark
    ghost var cuts: seq<ChunkRange>   // every chunk returned so far

    ghost predicate Valid()
      reads this
    {
      && Consecutive(cuts, StartAfter(from).0)
      && (from.Complete() ==> cuts == [])
      && var cut := Frontier(from, cuts, |cuts|);
      && done == cut.Complete()
      && (!done ==> next == StartAfter(cut).0)
    }

    constructor (from: Watermark)
      ensures Valid() && this.from == from && cuts == []
    {
      this.from := from;
      next, done := StartAfter(from).0, StartAfter(from).1;
      cuts := [];
    }

    /** The cut frontier: the highest key of any chunk returned, or that the chunker resumed past. */
    function Cut(): (w: Watermark)
      requires Valid()
      reads this
      ensures w == Frontier(from, cuts, |cuts|)
    {
      if done then Through(MAX_KEY) else if next == MIN_KEY then Unset else Through(next - 1)
    }

    /** Cut the next chunk. `upper` is the boundary the source was asked for: the key that closes a
        chunk of `rows` rows, or `None` when fewer remain. A boundary below the lower bound is
        refused, and nothing moves. */
    method Next(upper: Option<int64>, rows: int64) returns (r: Option<ChunkRange>, refused: bool)
      requires Valid()
      modifies this
      ensures Valid()
      ensures refused <==> !old(done) && upper.Some? && upper.value < old(next)
      ensures r.Some? <==> !old(done) && !refused
      ensures r.None? ==> cuts == old(cuts) && next == old(next) && done == old(done)
      ensures r.Some? ==>
                && r.value == ChunkRange(old(next), if upper.Some? then upper.value else MAX_KEY, rows)
                && cuts == old(cuts) + [r.value]
    {
      if done { return None, false; }
      var last: int64 := if upper.Some? then upper.value else MAX_KEY;
      if last < next { return None, true; }
      var chunk := ChunkRange(next, last, rows);
      Extends(cuts, StartAfter(from).0, chunk);
      if last == MAX_KEY { done := true; } else { next := last + 1; }
      cuts := cuts + [chunk];
      return Some(chunk), false;
    }
  }

  /** When the chunker is done, the chunks it returned cover every key above the resume point exactly
      once, and none below it. */
  lemma DoneCovers(c: Chunker, key: int64)
    requires c.Valid() && c.done && !c.from.Reaches(key)
    ensures exists i :: 0 <= i < |c.cuts| && Covers(c.cuts[i], key)
    ensures forall i, j ::
              0 <= i < |c.cuts| && 0 <= j < |c.cuts| && Covers(c.cuts[i], key) && Covers(c.cuts[j], key) ==> i == j
  {
    assert |c.cuts| > 0;
    Tiles(c.cuts, StartAfter(c.from).0, key);
  }

  // ------------------------------------------------------- the ledger

  datatype Partial = Partial(rows: int, pending: seq<int>)

  /** The copier's bookkeeping. */
  datatype Books = Books(cut: Watermark, watermark: Watermark, next: int64, complete: bool,
                         inFlight: seq<ChunkRange>, landed: seq<ChunkRange>,
                         partial: map<ChunkRange, Partial>, rows: int)

  function NewBooks(from: Watermark): (r: Books)
  {
    Books(from, from, StartAfter(from).0, StartAfter(from).1, [], [], map[], 0)
  }

  predicate StartsAtFrontier(b: Books, chunk: ChunkRange)
  {
    if b.cut.Unset? then chunk.lower == MIN_KEY
    else if b.cut.value == MAX_KEY then false
    else chunk.lower == b.cut.value + 1
  }

  function Claim(b: Books, chunk: ChunkRange): (r: Books)
  {
    if StartsAtFrontier(b, chunk) then b.(inFlight := b.inFlight + [chunk], cut := Through(chunk.upper)) else b
  }

  function Owed(b: Books, chunk: ChunkRange): (r: int)
  {
    if chunk in b.partial then b.partial[chunk].rows else 0
  }

  function Settle(b: Books, chunk: ChunkRange, total: int, pending: seq<int>): (r: Books)
  {
    if chunk !in b.inFlight || pending == [] then b
    else b.(rows := b.rows + total - Owed(b, chunk), partial := b.partial[chunk := Partial(total, pending)])
  }

  /** The first waiting chunk that starts at `lower`; the length of the list when there is none. */
  function IndexOf(chunks: seq<ChunkRange>, lower: int): (i: nat)
    ensures i <= |chunks|
    ensures i < |chunks| ==> chunks[i].lower == lower
    ensures forall j :: 0 <= j < i ==> chunks[j].lower != lower
  {
    if chunks == [] || chunks[0].lower == lower then 0 else 1 + IndexOf(chunks[1..], lower)
  }

  /** Move the watermark past one waiting chunk. */
  function Pass(b: Books, i: nat): (r: Books)
    requires i < |b.landed|
  {
    var upper := b.landed[i].upper;
    b.(landed := Without(b.landed, i), watermark := Through(upper), complete := upper == MAX_KEY,
       next := if upper == MAX_KEY then b.next else upper + 1)
  }

  /** Pass every waiting chunk contiguous with the watermark. */
  function Advance(b: Books): (r: Books)
    decreases |b.landed|
  {
    var i := IndexOf(b.landed, b.next);
    if b.complete || i == |b.landed| then b else Advance(Pass(b, i))
  }

  function Find(chunks: seq<ChunkRange>, c: ChunkRange): (i: nat)
    ensures i <= |chunks|
    ensures i < |chunks| ==> chunks[i] == c
    ensures i == |chunks| ==> c !in chunks
  {
    if chunks == [] || chunks[0] == c then 0 else 1 + Find(chunks[1..], c)
  }

  function Land(b: Books, chunk: ChunkRange, total: int): (r: Books)
  {
    var i := Find(b.inFlight, chunk);
    if i == |b.inFlight| then b else Advance(Waiting(b, i, total))
  }

  function Snapshot(b: Books): (r: Position)
  {
    Position(b.watermark, b.cut, b.inFlight, PendingOf(b.inFlight, b.partial), b.rows)
  }

  function PendingOf(inFlight: seq<ChunkRange>, partial: map<ChunkRange, Partial>): (r: seq<PendingKeys>)
  {
    if inFlight == [] then []
    else
      (if inFlight[0] in partial then [PendingKeys(inFlight[0], partial[inFlight[0]].pending)] else []) +
      PendingOf(inFlight[1..], partial)
  }

  // ------------------------------------------------------- what the ledger keeps

  /** What happened so far: every chunk claimed, in order, how many of them the watermark has passed,
      and the rows each is recorded to have inserted. */
  datatype Past = Past(claimed: seq<ChunkRange>, passed: nat, credit: map<ChunkRange, int>)

  /** The chunks claimed tile the key space from the resume point to the cut frontier, and the
      watermark is the end of the last one passed. */
  ghost predicate Placed(from: Watermark, b: Books, p: Past)
  {
    && Consecutive(p.claimed, StartAfter(from).0)
    && (from.Complete() ==> p.claimed == [])
    && p.passed <= |p.claimed|
    && b.cut == Frontier(from, p.claimed, |p.claimed|)
    && b.watermark == Frontier(from, p.claimed, p.passed)
    && b.complete == b.watermark.Complete()
    && (!b.complete ==> b.next == StartAfter(b.watermark).0)
  }

  /** The rows counted are those of every chunk's last recorded total, and no chunk's twice. */
  ghost predicate Counted(b: Books, p: Past)
  {
    && b.rows == Total(p.claimed, p.credit)
    && (forall c :: c in b.inFlight ==> Credit(p.credit, c) == Owed(b, c))
    && (forall c :: c in b.partial ==> c in b.inFlight && b.partial[c].pending != [] && Ascending(b.partial[c].pending))
  }

  /** The chunks above the watermark are in flight, or landed and waiting, each exactly once. */
  ghost predicate Held(b: Books, p: Past)
  {
    p.passed <= |p.claimed| && multiset(b.inFlight) + multiset(b.landed) == multiset(p.claimed[p.passed..])
  }

  /** The chunks are in ascending key order. */
  predicate InOrder(chunks: seq<ChunkRange>)
  {
    forall i, j :: 0 <= i < j < |chunks| ==> chunks[i].upper < chunks[j].lower
  }

  /** Everything but that the watermark is as high as it can be. */
  ghost predicate Tidy(from: Watermark, b: Books, p: Past)
  {
    Placed(from, b, p) && Counted(b, p) && Held(b, p) && InOrder(b.inFlight)
  }

  /** And the first chunk the watermark has not passed is in flight. */
  ghost predicate Exact(from: Watermark, b: Books, p: Past)
  {
    Tidy(from, b, p) && (p.passed < |p.claimed| ==> p.claimed[p.passed] in b.inFlight)
  }

  lemma NewIsExact(from: Watermark)
    ensures Exact(from, NewBooks(from), Past([], 0, map[]))
  {
  }

  /** Consecutive chunks are distinct: one occurs once. */
  lemma {:induction false} Once(chunks: seq<ChunkRange>, start: int, n: nat, c: ChunkRange)
    requires Consecutive(chunks, start) && n <= |chunks|
    ensures multiset(chunks[n..])[c] <= 1
    ensures c in multiset(chunks[n..]) <==> exists j :: n <= j < |chunks| && chunks[j] == c
    decreases |chunks| - n
  {
    if n < |chunks| {
      Once(chunks, start, n + 1, c);
      assert chunks[n..] == [chunks[n]] + chunks[n + 1..];
      if c in multiset(chunks[n + 1..]) {
        var j :| n + 1 <= j < |chunks| && chunks[j] == c;
        Ordered(chunks, start, n, j);
      }
    }
  }

  /** A chunk in flight or waiting is one claimed chunk above the watermark, and not both. */
  lemma Located(from: Watermark, b: Books, p: Past, c: ChunkRange)
    requires Placed(from, b, p) && Held(b, p)
    ensures c in b.inFlight || c in b.landed <==> exists j :: p.passed <= j < |p.claimed| && p.claimed[j] == c
    ensures !(c in b.inFlight && c in b.landed)
    ensures multiset(b.inFlight)[c] <= 1 && multiset(b.landed)[c] <= 1
  {
    Once(p.claimed, StartAfter(from).0, p.passed, c);
    assert multiset(p.claimed[p.passed..])[c] == multiset(b.inFlight)[c] + multiset(b.landed)[c];
    assert c in b.inFlight <==> multiset(b.inFlight)[c] > 0;
    assert c in b.landed <==> multiset(b.landed)[c] > 0;
  }

  lemma ClaimIsPlaced(from: Watermark, b: Books, p: Past, chunk: ChunkRange)
    requires Placed(from, b, p) && StartsAtFrontier(b, chunk) && chunk.lower <= chunk.upper
    ensures Placed(from, Claim(b, chunk), Past(p.claimed + [chunk], p.passed, p.credit[chunk := 0]))
    ensures chunk !in p.claimed
  {
    Extends(p.claimed, StartAfter(from).0, chunk);
    if chunk in p.claimed {
      var i :| 0 <= i < |p.claimed| && p.claimed[i] == chunk;
      if i < |p.claimed| - 1 {
        Ordered(p.claimed, StartAfter(from).0, i, |p.claimed| - 1);
      }
    }
  }

  lemma BelowCut(from: Watermark, b: Books, p: Past, c: ChunkRange)
    requires Placed(from, b, p) && Held(b, p) && (c in b.inFlight || c in b.landed)
    ensures c.lower <= c.upper && b.cut.Through? && c.upper <= b.cut.value
    ensures b.watermark.Through? ==> b.watermark.value < c.lower
  {
    Located(from, b, p, c);
    var j :| p.passed <= j < |p.claimed| && p.claimed[j] == c;
    assert Follows(p.claimed, StartAfter(from).0, j);
    if j < |p.claimed| - 1 {
      Ordered(p.claimed, StartAfter(from).0, j, |p.claimed| - 1);
    }
    if 0 < p.passed {
      Ordered(p.claimed, StartAfter(from).0, p.passed - 1, j);
    } else if 0 < j {
      Ordered(p.claimed, StartAfter(from).0, 0, j);
    }
  }

  lemma ClaimIsInOrder(from: Watermark, b: Books, p: Past, chunk: ChunkRange)
    requires Placed(from, b, p) && Held(b, p) && InOrder(b.inFlight) && StartsAtFrontier(b, chunk)
    ensures InOrder(b.inFlight + [chunk])
  {
    forall i | 0 <= i < |b.inFlight| ensures b.inFlight[i].upper < chunk.lower {
      BelowCut(from, b, p, b.inFlight[i]);
    }
  }

  lemma ClaimIsCounted(b: Books, p: Past, chunk: ChunkRange)
    requires Counted(b, p) && chunk !in p.claimed && chunk !in b.inFlight && StartsAtFrontier(b, chunk)
    ensures Counted(Claim(b, chunk), Past(p.claimed + [chunk], p.passed, p.credit[chunk := 0]))
  {
    TotalIgnores(p.claimed, p.credit, chunk, 0);
    assert (p.claimed + [chunk])[..|p.claimed|] == p.claimed;
  }

  /** A claim at the frontier extends the tiling by one chunk, in flight and credited with nothing. */
  lemma ClaimIsExact(from: Watermark, b: Books, p: Past, chunk: ChunkRange)
    requires Exact(from, b, p) && StartsAtFrontier(b, chunk) && chunk.lower <= chunk.upper
    ensures Exact(from, Claim(b, chunk), Past(p.claimed + [chunk], p.passed, p.credit[chunk := 0]))
  {
    ClaimIsPlaced(from, b, p, chunk);
    Located(from, b, p, chunk);
    ClaimIsCounted(b, p, chunk);
    ClaimIsInOrder(from, b, p, chunk);
    Shift(multiset(b.inFlight), multiset(b.landed), multiset(p.claimed[p.passed..]), chunk);
    assert (p.claimed + [chunk])[p.passed..] == p.claimed[p.passed..] + [chunk];
  }

  /** Settling a chunk changes the rows counted by what its last pass added, and moves nothing. */
  lemma SettleIsExact(from: Watermark, b: Books, p: Past, chunk: ChunkRange, total: int, pending: seq<int>)
    requires Exact(from, b, p) && chunk in b.inFlight && pending != [] && Ascending(pending)
    ensures Exact(from, Settle(b, chunk, total, pending), p.(credit := p.credit[chunk := total]))
  {
    Located(from, b, p, chunk);
    TotalUpdate(p.claimed, StartAfter(from).0, p.credit, chunk, total);
  }

  /** The waiting chunk that starts just above the watermark is the first one not yet passed. */
  lemma NextIsFirst(from: Watermark, b: Books, p: Past, chunk: ChunkRange)
    requires Placed(from, b, p) && Held(b, p) && !b.complete && chunk in b.landed && chunk.lower == b.next
    ensures p.passed < |p.claimed| && p.claimed[p.passed] == chunk
  {
    Located(from, b, p, chunk);
    var j :| p.passed <= j < |p.claimed| && p.claimed[j] == chunk;
    assert Follows(p.claimed, StartAfter(from).0, p.passed);
    if j > p.passed {
      Ordered(p.claimed, StartAfter(from).0, p.passed, j);
    }
  }

  /** When no waiting chunk starts just above the watermark, the one that does is in flight. */
  lemma NextInFlight(from: Watermark, b: Books, p: Past)
    requires Placed(from, b, p) && Held(b, p) && p.passed < |p.claimed|
    requires !b.complete && IndexOf(b.landed, b.next) == |b.landed|
    ensures p.claimed[p.passed] in b.inFlight
  {
    assert Follows(p.claimed, StartAfter(from).0, p.passed);
    Located(from, b, p, p.claimed[p.passed]);
  }

  lemma CompleteIsLast(from: Watermark, b: Books, p: Past)
    requires Placed(from, b, p) && b.complete
    ensures p.passed == |p.claimed|
  {
    if 0 < p.passed < |p.claimed| {
      Ordered(p.claimed, StartAfter(from).0, p.passed - 1, p.passed);
    }
  }

  lemma Shift<T>(a: multiset<T>, b: multiset<T>, all: multiset<T>, x: T)
    requires a + b == all
    ensures x in a ==> (a - multiset{x}) + (b + multiset{x}) == all
    ensures (a + multiset{x}) + b == all + multiset{x}
    ensures x in b ==> a + (b - multiset{x}) == all - multiset{x}
  {
  }

  lemma PassIsHeld(b: Books, p: Past, i: nat)
    requires Held(b, p) && i < |b.landed| && p.passed < |p.claimed| && p.claimed[p.passed] == b.landed[i]
    ensures Held(Pass(b, i), p.(passed := p.passed + 1))
  {
    WithoutIs(b.landed, i);
    Shift(multiset(b.inFlight), multiset(b.landed), multiset(p.claimed[p.passed..]), b.landed[i]);
    assert p.claimed[p.passed..] == [b.landed[i]] + p.claimed[p.passed + 1..];
  }

  lemma PassIsTidy(from: Watermark, b: Books, p: Past)
    requires Tidy(from, b, p) && !b.complete && IndexOf(b.landed, b.next) < |b.landed|
    ensures p.passed < |p.claimed|
    ensures Tidy(from, Pass(b, IndexOf(b.landed, b.next)), p.(passed := p.passed + 1))
  {
    var i := IndexOf(b.landed, b.next);
    NextIsFirst(from, b, p, b.landed[i]);
    PassIsHeld(b, p, i);
    assert Counted(Pass(b, i), p.(passed := p.passed + 1));
  }

  /** Advancing passes exactly the waiting chunks that follow on from the watermark, and stops at the
      first one in flight. */
  lemma {:induction false} AdvanceIsExact(from: Watermark, b: Books, p: Past) returns (p': Past)
    requires Tidy(from, b, p)
    ensures Exact(from, Advance(b), p') && p.passed <= p'.passed && p' == p.(passed := p'.passed)
    decreases |b.landed|
  {
    p' := p;
    var i := IndexOf(b.landed, b.next);
    if b.complete {
      CompleteIsLast(from, b, p);
    } else if i == |b.landed| {
      if p.passed < |p.claimed| {
        NextInFlight(from, b, p);
      }
    } else {
      PassIsTidy(from, b, p);
      p' := AdvanceIsExact(from, Pass(b, i), p.(passed := p.passed + 1));
    }
  }

  /** The books after a chunk left flight, before the watermark advances. */
  function Waiting(b: Books, i: nat, total: int): (r: Books)
    requires i < |b.inFlight|
  {
    var chunk := b.inFlight[i];
    b.(inFlight := Without(b.inFlight, i), rows := b.rows + total - Owed(b, chunk),
       partial := b.partial - {chunk}, landed := b.landed + [chunk])
  }

  lemma WaitingIsHeld(b: Books, p: Past, i: nat, total: int)
    requires Held(b, p) && i < |b.inFlight|
    ensures Held(Waiting(b, i, total), p)
  {
    var chunk := b.inFlight[i];
    WithoutIs(b.inFlight, i);
    Shift(multiset(b.inFlight), multiset(b.landed), multiset(p.claimed[p.passed..]), chunk);
    assert multiset(b.landed + [chunk]) == multiset(b.landed) + multiset{chunk};
  }

  lemma WaitingIsCounted(b: Books, p: Past, i: nat, total: int)
    requires Counted(b, p) && i < |b.inFlight|
    requires multiset(Waiting(b, i, total).inFlight)[b.inFlight[i]] == 0
    requires Total(p.claimed, p.credit[b.inFlight[i] := total]) == b.rows - Credit(p.credit, b.inFlight[i]) + total
    ensures Counted(Waiting(b, i, total), p.(credit := p.credit[b.inFlight[i] := total]))
  {
    WithoutIs(b.inFlight, i);
    assert b.inFlight[i] !in multiset(Without(b.inFlight, i));
    assert b.inFlight[i] !in Without(b.inFlight, i);
  }

  lemma WithoutInOrder(chunks: seq<ChunkRange>, i: nat)
    requires InOrder(chunks) && i < |chunks|
    ensures InOrder(Without(chunks, i))
  {
  }

  lemma WaitingIsTidy(from: Watermark, b: Books, p: Past, i: nat, total: int)
    requires Tidy(from, b, p) && i < |b.inFlight|
    ensures Tidy(from, Waiting(b, i, total), p.(credit := p.credit[b.inFlight[i] := total]))
  {
    var chunk := b.inFlight[i];
    assert Placed(from, Waiting(b, i, total), p);
    WaitingIsHeld(b, p, i, total);
    WithoutInOrder(b.inFlight, i);
    OnlyOnce(from, b, p, i);
    Located(from, b, p, chunk);
    TotalUpdate(p.claimed, StartAfter(from).0, p.credit, chunk, total);
    WaitingIsCounted(b, p, i, total);
  }

  lemma OnlyOnce(from: Watermark, b: Books, p: Past, i: nat)
    requires Placed(from, b, p) && Held(b, p) && i < |b.inFlight|
    ensures multiset(Without(b.inFlight, i))[b.inFlight[i]] == 0
  {
    WithoutIs(b.inFlight, i);
    Located(from, b, p, b.inFlight[i]);
  }

  /** Landing a chunk takes it out of flight, counts its total in place of what was recorded, and
      passes everything that now follows on from the watermark. */
  lemma LandIsExact(from: Watermark, b: Books, p: Past, chunk: ChunkRange, total: int) returns (p': Past)
    requires Exact(from, b, p) && chunk in b.inFlight
    ensures Exact(from, Land(b, chunk, total), p')
    ensures p'.claimed == p.claimed && p.passed <= p'.passed && p'.credit == p.credit[chunk := total]
  {
    var i := Find(b.inFlight, chunk);
    WaitingIsTidy(from, b, p, i, total);
    p' := AdvanceIsExact(from, Waiting(b, i, total), p.(credit := p.credit[chunk := total]));
  }

  // ------------------------------------------------------- what a snapshot says

  /** A claimed chunk covers the key and has not committed it. */
  ghost predicate Owes(b: Books, c: ChunkRange, key: int)
  {
    c in b.inFlight && Covers(c, key) && (c in b.partial ==> key in b.partial[c].pending)
  }

  lemma {:induction false} WithinIs(inFlight: seq<ChunkRange>, partial: map<ChunkRange, Partial>, c: ChunkRange,
                                    key: int)
    requires c in inFlight
    ensures ClassifyWithin(PendingOf(inFlight, partial), c, key) ==
            if c in partial && key !in partial[c].pending then KeyLanded else KeyInFlight
  {
    if inFlight[0] == c {
      if c !in partial {
        NotPending(inFlight, partial, c, key);
      }
    } else {
      WithinIs(inFlight[1..], partial, c, key);
      var rest := PendingOf(inFlight[1..], partial);
      if inFlight[0] in partial {
        assert PendingOf(inFlight, partial)[1..] == rest;
      } else {
        assert PendingOf(inFlight, partial) == rest;
      }
    }
  }

  lemma {:induction false} NotPending(inFlight: seq<ChunkRange>, partial: map<ChunkRange, Partial>, c: ChunkRange,
                                      key: int)
    requires c !in partial
    ensures ClassifyWithin(PendingOf(inFlight, partial), c, key) == KeyInFlight
  {
    if inFlight != [] {
      NotPending(inFlight[1..], partial, c, key);
      var rest := PendingOf(inFlight[1..], partial);
      if inFlight[0] in partial {
        assert PendingOf(inFlight, partial)[1..] == rest;
      } else {
        assert PendingOf(inFlight, partial) == rest;
      }
    }
  }

  /** In a snapshot a key reads as in flight exactly when a claimed chunk still owes it, as uncut
      exactly when no claimed chunk and no earlier run has reached it, and as landed otherwise. */
  lemma ClassifyIsExact(b: Books, key: int)
    requires InOrder(b.inFlight)
    ensures Classify(Snapshot(b), key) == KeyUncut <==> !b.cut.Reaches(key)
    ensures Classify(Snapshot(b), key) == KeyInFlight <==> b.cut.Reaches(key) && exists c :: Owes(b, c, key)
  {
    var pending := PendingOf(b.inFlight, b.partial);
    if i :| 0 <= i < |b.inFlight| && Covers(b.inFlight[i], key) {
      var c := b.inFlight[i];
      ClassifyAmongIs(b.inFlight, pending, key, i);
      WithinIs(b.inFlight, b.partial, c, key);
      forall d | Owes(b, d, key) ensures d == c {
        var j :| 0 <= j < |b.inFlight| && b.inFlight[j] == d;
        assert j == i;
      }
      assert Owes(b, c, key) || (c in b.partial && key !in b.partial[c].pending);
    } else {
      ClassifyAmongNone(b.inFlight, pending, key);
    }
  }

  /** The pending lists of a snapshot are ascending, so a search in them answers. */
  lemma {:induction false} SnapshotAscends(inFlight: seq<ChunkRange>, partial: map<ChunkRange, Partial>)
    requires forall c :: c in partial ==> Ascending(partial[c].pending)
    ensures forall i :: 0 <= i < |PendingOf(inFlight, partial)| ==> Ascending(PendingOf(inFlight, partial)[i].keys)
  {
    if inFlight != [] {
      SnapshotAscends(inFlight[1..], partial);
    }
  }

  /** Every key at or below the watermark has landed: a run resumed from it misses nothing. */
  lemma WatermarkIsLanded(from: Watermark, b: Books, p: Past, key: int)
    requires Exact(from, b, p) && b.watermark.Reaches(key)
    ensures Classify(Snapshot(b), key) == KeyLanded
  {
    ClassifyIsExact(b, key);
    forall c | c in b.inFlight ensures !Covers(c, key) {
      BelowCut(from, b, p, c);
    }
    WatermarkBelowCut(from, b, p);
  }

  lemma WatermarkBelowCut(from: Watermark, b: Books, p: Past)
    requires Placed(from, b, p)
    ensures b.watermark.Through? ==> b.cut.Through? && b.watermark.value <= b.cut.value
  {
    if 0 < p.passed < |p.claimed| {
      Ordered(p.claimed, StartAfter(from).0, p.passed - 1, |p.claimed| - 1);
    } else if p.passed == 0 && |p.claimed| > 0 {
      assert Follows(p.claimed, StartAfter(from).0, 0);
      if |p.claimed| > 1 {
        Ordered(p.claimed, StartAfter(from).0, 0, |p.claimed| - 1);
      }
    }
  }

  /** A chunk the watermark has not passed: in flight, or landed and waiting. */
  predicate Unpassed(b: Books, c: ChunkRange)
  {
    c in b.inFlight || c in b.landed
  }

  /** Between the watermark and the cut frontier, every key lies in exactly one chunk that is in flight
      or waiting: nothing between them is unaccounted for, and nothing twice. */
  lemma BetweenIsTiled(from: Watermark, b: Books, p: Past, key: int64)
    requires Exact(from, b, p) && !b.watermark.Reaches(key) && b.cut.Reaches(key)
    ensures exists c :: Unpassed(b, c) && Covers(c, key)
    ensures forall c, d :: Unpassed(b, c) && Unpassed(b, d) && Covers(c, key) && Covers(d, key) ==> c == d
  {
    var start := StartAfter(from).0;
    if p.claimed != [] {
      assert Follows(p.claimed, start, 0);
      if p.passed > 1 {
        Ordered(p.claimed, start, 0, p.passed - 1);
      }
      Tiles(p.claimed, start, key);
      var i :| 0 <= i < |p.claimed| && Covers(p.claimed[i], key);
      if i < p.passed - 1 {
        Ordered(p.claimed, start, i, p.passed - 1);
      }
      Located(from, b, p, p.claimed[i]);
      assert Unpassed(b, p.claimed[i]);
    }
    forall c, d | Unpassed(b, c) && Unpassed(b, d) && Covers(c, key) && Covers(d, key) ensures c == d
    {
      OneHolds(from, b, p, c, d, key);
    }
  }

  lemma OneHolds(from: Watermark, b: Books, p: Past, c: ChunkRange, d: ChunkRange, key: int)
    requires Exact(from, b, p) && Unpassed(b, c) && Unpassed(b, d) && Covers(c, key) && Covers(d, key)
    ensures c == d
  {
    Located(from, b, p, c);
    Located(from, b, p, d);
    var i :| p.passed <= i < |p.claimed| && p.claimed[i] == c;
    var j :| p.passed <= j < |p.claimed| && p.claimed[j] == d;
    if i < j {
      Ordered(p.claimed, StartAfter(from).0, i, j);
    } else if j < i {
      Ordered(p.claimed, StartAfter(from).0, j, i);
    }
  }

  /** The watermark is as high as it can be: while anything is cut above it, the key just above it has
      not all landed — its chunk is in flight. With nothing in flight, the two frontiers meet. */
  lemma WatermarkIsHighest(from: Watermark, b: Books, p: Past)
    requires Exact(from, b, p)
    ensures b.watermark != b.cut ==> exists c :: c in b.inFlight && c.lower == StartAfter(b.watermark).0
    ensures b.inFlight == [] ==> b.watermark == b.cut && b.landed == []
  {
    if p.passed < |p.claimed| {
      assert Follows(p.claimed, StartAfter(from).0, p.passed);
      assert Follows(p.claimed, StartAfter(from).0, |p.claimed| - 1);
    } else {
      assert |multiset(b.inFlight)| + |multiset(b.landed)| == |multiset(p.claimed[p.passed..])| == 0;
    }
  }

  /** What one snapshot says of itself: every key its watermark reaches it classifies as landed, and no higher
      watermark would do, as the key just above it is in a chunk in flight unless nothing is cut above it; and its
      rows are those counted. */
  lemma SnapshotIsRight(from: Watermark, b: Books, p: Past)
    requires Exact(from, b, p)
    ensures var s := Snapshot(b);
            && (forall key :: s.watermark.Reaches(key) ==> Classify(s, key) == KeyLanded)
            && (s.watermark != s.cut ==> exists c :: c in s.inFlight && c.lower == StartAfter(s.watermark).0)
            && (s.inFlight == [] ==> s.watermark == s.cut)
            && s.rowsInserted == Total(p.claimed, p.credit)
  {
    forall key | Snapshot(b).watermark.Reaches(key) ensures Classify(Snapshot(b), key) == KeyLanded {
      WatermarkIsLanded(from, b, p, key);
    }
    WatermarkIsHighest(from, b, p);
  }
}
