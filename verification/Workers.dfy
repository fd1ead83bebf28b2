/** Any number of workers over one ledger: chunks claimed, passed over and landed in any interleaving
    (pkg/copier/copier.go, retry.go, ledger.go). */
module Workers {
  import opened Options
  import opened Copying
  import opened Ledger
  import opened Copier
  import opened Passes

  /** What a worker has done with its chunk: how the server answers its passes, how many it has made, and whether it
      has yet to record what the last one left out. */
  datatype Job = Job(server: nat -> Answer, made: nat, owing: bool)

  /** The ledger, and the job of every chunk ever claimed. */
  datatype Shop = Shop(books: Books, jobs: map<ChunkRange, Job>)

  datatype Act =
    | TakeChunk(claimed: Chunk, server: nat -> Answer)
    | MakePass(chunk: ChunkRange)
    | SettlePass(chunk: ChunkRange)
    | LandChunk(chunk: ChunkRange)

  function Now(j: Job): (g: Progress)
  {
    After(j.server, j.made)
  }

  predicate Open(g: Progress)
  {
    !g.Done? && !g.Stopped?
  }

  /** The last pass committed around rows it left out, and is to be settled. */
  predicate Settling(j: Job)
  {
    j.made > 0 && j.server(j.made).Committed? && Now(j).Around? && Now(j).owed.Some?
  }

  /** The job after one more pass. */
  function Tried(j: Job): (r: Job)
  {
    var next := Job(j.server, j.made + 1, false);
    next.(owing := Settling(next))
  }

  /** The worker's chunk is in flight and it may make a pass. */
  predicate Passable(w: Shop, chunk: ChunkRange)
  {
    chunk in w.jobs && chunk in w.books.inFlight && Open(Now(w.jobs[chunk])) && !w.jobs[chunk].owing
  }

  /** The worker's chunk is in flight and a pass is to be recorded. */
  predicate Settleable(w: Shop, chunk: ChunkRange)
  {
    chunk in w.jobs && chunk in w.books.inFlight && w.jobs[chunk].owing && Settling(w.jobs[chunk])
  }

  /** The worker's chunk is in flight and complete. */
  predicate Landable(w: Shop, chunk: ChunkRange)
  {
    chunk in w.jobs && chunk in w.books.inFlight && Now(w.jobs[chunk]).Done?
  }

  /** One worker's next action; one that is not its to take changes nothing. */
  function Perform(w: Shop, a: Act): (w': Shop)
  {
    match a
    case TakeChunk(chunk, server) =>
      if StartsAtFrontier(w.books, chunk)
      then Shop(Ledger.Claim(w.books, chunk), w.jobs[chunk := Job(server, 0, false)]) else w
    case MakePass(chunk) =>
      if Passable(w, chunk) then w.(jobs := w.jobs[chunk := Tried(w.jobs[chunk])]) else w
    case SettlePass(chunk) =>
      if Settleable(w, chunk) then
        var j := w.jobs[chunk];
        Shop(Ledger.Settle(w.books, chunk, Now(j).total, Now(j).owed.value), w.jobs[chunk := j.(owing := false)])
      else w
    case LandChunk(chunk) =>
      if Landable(w, chunk) then w.(books := Ledger.Land(w.books, chunk, Now(w.jobs[chunk]).total)) else w
  }

  function PerformAll(from: Watermark, acts: seq<Act>): (w: Shop)
  {
    if acts == [] then Shop(NewBooks(from), map[])
    else Perform(PerformAll(from, acts[..|acts| - 1]), acts[|acts| - 1])
  }

  // ------------------------------------------------------- what every action keeps

  /** The passes whose rows the ledger counts: all that were made, but the last one of a chunk in flight while it is
      not recorded. */
  function CountedPasses(j: Job, flying: bool): (n: nat)
    ensures n <= j.made
  {
    if flying && j.made > 0 && (Now(j).Done? || j.owing) then j.made - 1 else j.made
  }

  /** What the ledger should hold of a chunk in flight. */
  function RecordOf(j: Job): (r: Option<Partial>)
  {
    var g := After(j.server, CountedPasses(j, true));
    if StillOwed(g).Some? then Some(Partial(g.total, StillOwed(g).value)) else None
  }

  function PartOf(b: Books, c: ChunkRange): (r: Option<Partial>)
  {
    if c in b.partial then Some(b.partial[c]) else None
  }

  /** The ledger's view of one chunk agrees with its worker's. */
  ghost predicate JobOK(j: Job, flying: bool, part: Option<Partial>, credit: int)
  {
    && Orderly(j.server) && StillOpen(j.server, j.made) && (j.owing ==> Settling(j))
    && if flying then part == RecordOf(j) else Now(j).Done? && credit == Inserted(j.server, j.made)
  }

  ghost predicate JobAt(w: Shop, p: Past, c: ChunkRange)
    requires c in w.jobs
  {
    JobOK(w.jobs[c], c in w.books.inFlight, PartOf(w.books, c), Credit(p.credit, c))
  }

  /** The ledger and the workers agree about every chunk claimed. */
  ghost predicate Agrees(w: Shop, p: Past)
  {
    && (forall c :: c in w.jobs <==> c in p.claimed)
    && (forall c :: c in w.jobs ==> JobAt(w, p, c))
  }

  /** Nothing about the chunk differs. */
  ghost predicate SameChunk(w: Shop, p: Past, w': Shop, p': Past, c: ChunkRange)
  {
    && (c in w.jobs <==> c in w'.jobs) && (c in w.jobs ==> w.jobs[c] == w'.jobs[c])
    && (c in p.claimed <==> c in p'.claimed) && Credit(p.credit, c) == Credit(p'.credit, c)
    && (c in w.books.inFlight <==> c in w'.books.inFlight) && PartOf(w.books, c) == PartOf(w'.books, c)
  }

  /** An action on one chunk need only be answered for there. */
  lemma OneChunk(w: Shop, p: Past, w': Shop, p': Past, chunk: ChunkRange)
    requires Agrees(w, p) && chunk in w'.jobs && chunk in p'.claimed && JobAt(w', p', chunk)
    requires forall c :: c != chunk ==> SameChunk(w, p, w', p', c)
    ensures Agrees(w', p')
  {
    forall c | c in w'.jobs ensures JobAt(w', p', c) {
      if c != chunk {
        assert SameChunk(w, p, w', p', c) && JobAt(w, p, c);
      }
    }
    forall c ensures c in w'.jobs <==> c in p'.claimed {
      if c != chunk {
        assert SameChunk(w, p, w', p', c);
      }
    }
  }

  /** A pass does not touch the record. */
  lemma PassRecord(j: Job)
    requires Open(Now(j)) && !j.owing && StillOpen(j.server, j.made)
    ensures StillOpen(j.server, j.made + 1) && RecordOf(Tried(j)) == RecordOf(j)
  {
  }

  /** Settling makes it what the last pass left out. */
  lemma SettleRecord(j: Job)
    requires j.owing && Settling(j) && StillOpen(j.server, j.made) && Orderly(j.server)
    ensures RecordOf(j.(owing := false)) == Some(Partial(Now(j).total, Now(j).owed.value))
    ensures Now(j).owed.value != [] && Ascending(Now(j).owed.value)
  {
    OwedIsSome(j.server, j.made);
    OwedAscends(j.server, j.made);
  }

  lemma TakeAgrees(w: Shop, p: Past, chunk: Chunk, server: nat -> Answer)
    requires Agrees(w, p) && StartsAtFrontier(w.books, chunk) && Orderly(server) && chunk !in w.books.partial
    ensures Agrees(Perform(w, TakeChunk(chunk, server)), Past(p.claimed + [chunk], p.passed, p.credit[chunk := 0]))
  {
    var w', p' := Perform(w, TakeChunk(chunk, server)), Past(p.claimed + [chunk], p.passed, p.credit[chunk := 0]);
    assert RecordOf(w'.jobs[chunk]) == None;
    OneChunk(w, p, w', p', chunk);
  }

  lemma PassAgrees(w: Shop, p: Past, chunk: ChunkRange)
    requires Agrees(w, p) && Passable(w, chunk)
    ensures Agrees(Perform(w, MakePass(chunk)), p)
  {
    assert JobAt(w, p, chunk);
    PassRecord(w.jobs[chunk]);
    OneChunk(w, p, Perform(w, MakePass(chunk)), p, chunk);
  }

  lemma SettleAgrees(w: Shop, p: Past, chunk: ChunkRange)
    requires Agrees(w, p) && Settleable(w, chunk)
    ensures var g := Now(w.jobs[chunk]);
            && g.owed.value != [] && Ascending(g.owed.value)
            && Agrees(Perform(w, SettlePass(chunk)), p.(credit := p.credit[chunk := g.total]))
  {
    assert JobAt(w, p, chunk);
    SettleRecord(w.jobs[chunk]);
    OneChunk(w, p, Perform(w, SettlePass(chunk)), p.(credit := p.credit[chunk := Now(w.jobs[chunk]).total]), chunk);
  }

  lemma LandAgrees(w: Shop, p: Past, chunk: ChunkRange, total: int, p': Past)
    requires Agrees(w, p) && Landable(w, chunk) && total == Now(w.jobs[chunk]).total
    requires p'.claimed == p.claimed && p'.credit == p.credit[chunk := total]
    requires forall c :: c in Ledger.Land(w.books, chunk, total).inFlight <==> c in w.books.inFlight && c != chunk
    ensures Agrees(w.(books := Ledger.Land(w.books, chunk, total)), p')
  {
    var w' := w.(books := Ledger.Land(w.books, chunk, total));
    assert JobAt(w, p, chunk);
    TotalIsInserted(w.jobs[chunk].server, w.jobs[chunk].made);
    forall c | c != chunk ensures PartOf(w'.books, c) == PartOf(w.books, c) {
      LandPart(w.books, chunk, total, c);
    }
    OneChunk(w, p, w', p', chunk);
  }

  lemma LandPart(b: Books, chunk: ChunkRange, total: int, c: ChunkRange)
    requires chunk in b.inFlight && c != chunk
    ensures PartOf(Ledger.Land(b, chunk, total), c) == PartOf(b, c)
  {
    AdvanceKeepsStanding(Ledger.Waiting(b, Ledger.Find(b.inFlight, chunk), total));
  }

  /** Every action, by any worker, keeps the ledger exact and in agreement with what the workers have done. */
  lemma PerformKeeps(from: Watermark, w: Shop, p: Past, a: Act) returns (p': Past)
    requires Exact(from, w.books, p) && Agrees(w, p) && (a.TakeChunk? ==> Orderly(a.server))
    ensures Exact(from, Perform(w, a).books, p') && Agrees(Perform(w, a), p')
  {
    p' := p;
    match a
    case TakeChunk(chunk, server) =>
      if StartsAtFrontier(w.books, chunk) {
        p' := Past(p.claimed + [chunk], p.passed, p.credit[chunk := 0]);
        TakeIsExact(from, w.books, p, chunk);
        TakeAgrees(w, p, chunk, server);
      }
    case MakePass(chunk) =>
      if Passable(w, chunk) {
        PassAgrees(w, p, chunk);
      }
    case SettlePass(chunk) =>
      if Settleable(w, chunk) {
        var g := Now(w.jobs[chunk]);
        p' := p.(credit := p.credit[chunk := g.total]);
        SettleAgrees(w, p, chunk);
        SettleIsExact(from, w.books, p, chunk, g.total, g.owed.value);
      }
    case LandChunk(chunk) =>
      if Landable(w, chunk) {
        p' := LandKeeps(from, w, p, chunk);
      }
  }

  lemma TakeIsExact(from: Watermark, b: Books, p: Past, chunk: Chunk)
    requires Exact(from, b, p) && StartsAtFrontier(b, chunk)
    ensures Exact(from, Ledger.Claim(b, chunk), Past(p.claimed + [chunk], p.passed, p.credit[chunk := 0]))
    ensures chunk !in b.partial
  {
    ClaimIsExact(from, b, p, chunk);
    ClaimIsPlaced(from, b, p, chunk);
    NotPartial(from, b, p, chunk);
  }

  lemma LandLeaves(from: Watermark, b: Books, p: Past, chunk: ChunkRange, total: int) returns (p': Past)
    requires Exact(from, b, p) && chunk in b.inFlight
    ensures Exact(from, Ledger.Land(b, chunk, total), p')
    ensures p'.claimed == p.claimed && p'.credit == p.credit[chunk := total]
    ensures forall c :: c in Ledger.Land(b, chunk, total).inFlight <==> c in b.inFlight && c != chunk
  {
    p' := LandIsExact(from, b, p, chunk, total);
    forall c ensures c in Ledger.Land(b, chunk, total).inFlight <==> c in b.inFlight && c != chunk {
      StillInFlight(from, b, p, chunk, total, c);
    }
  }

  lemma LandKeeps(from: Watermark, w: Shop, p: Past, chunk: ChunkRange) returns (p': Past)
    requires Exact(from, w.books, p) && Agrees(w, p) && Landable(w, chunk)
    ensures var books := Ledger.Land(w.books, chunk, Now(w.jobs[chunk]).total);
            Exact(from, books, p') && Agrees(w.(books := books), p')
  {
    var total := Now(w.jobs[chunk]).total;
    p' := LandLeaves(from, w.books, p, chunk, total);
    LandAgrees(w, p, chunk, total, p');
  }

  // ------------------------------------------------------- every interleaving

  ghost predicate OrderlyActs(acts: seq<Act>)
  {
    forall i :: 0 <= i < |acts| && acts[i].TakeChunk? ==> Orderly(acts[i].server)
  }

  lemma {:induction false} AnyInterleaving(from: Watermark, acts: seq<Act>) returns (p: Past)
    requires OrderlyActs(acts)
    ensures Exact(from, PerformAll(from, acts).books, p) && Agrees(PerformAll(from, acts), p)
  {
    if acts == [] {
      NewIsExact(from);
      p := Past([], 0, map[]);
    } else {
      var q := AnyInterleaving(from, acts[..|acts| - 1]);
      p := PerformKeeps(from, PerformAll(from, acts[..|acts| - 1]), q, acts[|acts| - 1]);
    }
  }

  /** The rows that the counted passes over the chunks inserted. */
  function RowsOf(w: Shop, chunks: seq<ChunkRange>): (n: int)
    requires forall c :: c in chunks ==> c in w.jobs
  {
    if chunks == [] then 0
    else
      var c := chunks[|chunks| - 1];
      assert forall d :: d in chunks[..|chunks| - 1] ==> d in chunks;
      RowsOf(w, chunks[..|chunks| - 1]) + Inserted(w.jobs[c].server, CountedPasses(w.jobs[c], c in w.books.inFlight))
  }

  /** What the ledger credits a chunk with is what its counted passes inserted. */
  lemma CreditIsInserted(b: Books, j: Job, c: ChunkRange, p: Past)
    requires JobOK(j, c in b.inFlight, PartOf(b, c), Credit(p.credit, c))
    requires c in b.inFlight ==> Credit(p.credit, c) == Owed(b, c)
    ensures Credit(p.credit, c) == Inserted(j.server, CountedPasses(j, c in b.inFlight))
  {
    if c in b.inFlight {
      TotalIsInserted(j.server, CountedPasses(j, true));
    }
  }

  lemma {:induction false} TotalIsRows(w: Shop, p: Past, chunks: seq<ChunkRange>)
    requires forall c :: c in chunks ==> c in w.jobs
    requires forall c :: c in chunks ==>
               Credit(p.credit, c) == Inserted(w.jobs[c].server, CountedPasses(w.jobs[c], c in w.books.inFlight))
    ensures Total(chunks, p.credit) == RowsOf(w, chunks)
  {
    if chunks != [] {
      assert forall d :: d in chunks[..|chunks| - 1] ==> d in chunks;
      TotalIsRows(w, p, chunks[..|chunks| - 1]);
    }
  }

  /** Whatever the workers do and in whatever order, the row total counts every committed pass of every chunk
      once: all of a landed chunk's, and of a chunk in flight all but a last pass that is not recorded yet.
      The chunks are those ever claimed, each once, and with none in flight every one is complete. */
  lemma RowsAreInserted(from: Watermark, acts: seq<Act>) returns (claimed: seq<ChunkRange>)
    requires OrderlyActs(acts)
    ensures var w := PerformAll(from, acts);
            && Consecutive(claimed, StartAfter(from).0) && (forall c :: c in claimed <==> c in w.jobs)
            && Snapshot(w.books).rowsInserted == RowsOf(w, claimed)
            && (forall c :: c in w.jobs && c !in w.books.inFlight ==> Now(w.jobs[c]).Done?)
  {
    var w := PerformAll(from, acts);
    var p := AnyInterleaving(from, acts);
    claimed := p.claimed;
    forall c | c in w.jobs
      ensures Credit(p.credit, c) == Inserted(w.jobs[c].server, CountedPasses(w.jobs[c], c in w.books.inFlight))
      ensures c !in w.books.inFlight ==> Now(w.jobs[c]).Done?
    {
      assert JobAt(w, p, c);
      CreditIsInserted(w.books, w.jobs[c], c, p);
    }
    TotalIsRows(w, p, claimed);
  }

  /** Every pass a worker settles owes no key that the last one did not. */
  lemma PassNarrows(w: Shop, p: Past, chunk: ChunkRange)
    requires Agrees(w, p) && Settleable(w, chunk) && Ascending(Now(w.jobs[chunk]).owed.value)
    ensures var g := Now(w.jobs[chunk]); Narrows(w.books, Settles(chunk, g.total, g.owed.value))
  {
    assert JobAt(w, p, chunk);
    var j := w.jobs[chunk];
    if chunk in w.books.partial {
      forall k | k in Now(j).owed.value ensures k in w.books.partial[chunk].pending {
        OwedNarrows(After(j.server, j.made - 1), j.server(j.made), k);
      }
    }
  }

  lemma ActMovesForward(from: Watermark, w: Shop, p: Past, a: Act, key: int64)
    requires Exact(from, w.books, p) && Agrees(w, p)
    ensures Rank(Standing(w.books, key)) <= Rank(Standing(Perform(w, a).books, key))
  {
    match a
    case TakeChunk(chunk, server) =>
      DoMovesForward(from, w.books, p, Claims(chunk), key);
    case MakePass(chunk) =>
    case SettlePass(chunk) =>
      if Settleable(w, chunk) {
        var g := Now(w.jobs[chunk]);
        SettleAgrees(w, p, chunk);
        PassNarrows(w, p, chunk);
        DoMovesForward(from, w.books, p, Settles(chunk, g.total, g.owed.value), key);
      }
    case LandChunk(chunk) =>
      if Landable(w, chunk) {
        DoMovesForward(from, w.books, p, Lands(chunk, Now(w.jobs[chunk]).total), key);
      }
  }

  /** With any number of workers a key only ever goes from uncut to in flight to landed. */
  lemma {:induction false} WorkersNeverBack(from: Watermark, acts: seq<Act>, n: nat, key: int64)
    requires OrderlyActs(acts) && n <= |acts|
    ensures Rank(Standing(PerformAll(from, acts[..n]).books, key)) <= Rank(Standing(PerformAll(from, acts).books, key))
    decreases |acts|
  {
    if n == |acts| {
      assert acts[..n] == acts;
    } else {
      var front, last := acts[..|acts| - 1], acts[|acts| - 1];
      assert front[..n] == acts[..n];
      WorkersNeverBack(from, front, n, key);
      var p := AnyInterleaving(from, front);
      ActMovesForward(from, PerformAll(from, front), p, last, key);
    }
  }
}
