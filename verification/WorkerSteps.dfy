/** What the copier's workers do to the shadow and their ledger, as steps of the protocol
    (pkg/copier/copier.go, copy_chunk.go, copy_pending.go, retry.go). */
module WorkerSteps {
  import opened Options
  import opened Rows
  import opened Protocol
  import opened Copying
  import opened Ledger
  import opened Copier
  import opened Passes
  import opened Workers
  import opened DrainOrder
  import opened CopySteps

  // ------------------------------------------------------- what a worker does to the shadow

  /** The keys a committed pass reads: those the chunk still owes, or every one with a source row in it. */
  function Listed(g: Progress, a: Answer): (keys: seq<int>)
    requires a.Committed?
  {
    if g.Around? && g.owed.Some? then g.owed.value else a.rows
  }

  /** Those it leaves out. */
  function LeftBehind(g: Progress, a: Answer): (keys: seq<int>)
    requires a.Committed?
  {
    if g.Around? then Kept(Listed(g, a), a.blocked) else []
  }

  /** The answer is the server's: each key is read after its chunk was claimed, and the rows reported are those
      found. */
  ghost predicate Answers(h: History, s: State, chunk: ChunkRange, g: Progress, a: Answer, read: Key -> nat)
    requires a.Committed?
  {
    && (forall k :: Covers(chunk, k) && s.phase(k).Claimed? ==>
          s.phase(k).since <= read(k) <= s.seen(k) && read(k) <= s.now)
    && (!(g.Around? && g.owed.Some?) ==> forall k :: k in a.rows <==> Covers(chunk, k) && At(h, read(k), k).Some?)
  }

  /** The shadow with every row the pass read and did not leave out, where none stood. */
  function Inserting(h: History, shadow: Table, g: Progress, a: Answer, read: Key -> nat): (t: Table)
    requires a.Committed?
  {
    map k | k in shadow.Keys + (set j | j in Listed(g, a) && j !in LeftBehind(g, a) && At(h, read(j), j).Some?) ::
      if k in shadow then shadow[k] else Project(At(h, read(k), k).value, h.writable)
  }

  /** The keys the pass got in. */
  function Passing(b: Books, s: State, chunk: ChunkRange, pending: seq<int>): (phase: Key -> Phase)
  {
    k => if PassedOver(b, chunk, pending, k) then Phase.Copied else s.phase(k)
  }

  function PassLeaves(h: History, b: Books, s: State, chunk: ChunkRange, g: Progress, a: Answer,
                      read: Key -> nat): (r: State)
    requires a.Committed?
  {
    s.(shadow := Inserting(h, s.shadow, g, a, read), phase := Passing(b, s, chunk, LeftBehind(g, a)))
  }

  /** What the server says to the pass that is next. */
  function Said(j: Job): (a: Answer)
  {
    j.server(j.made + 1)
  }

  /** A committed pass: the server inserts what it answers, within its constraints. */
  ghost predicate PassMade(h: History, w: Shop, s: State, chunk: ChunkRange, read: Key -> nat, s': State)
    requires Passable(w, chunk) && Said(w.jobs[chunk]).Committed?
  {
    var g, a := Now(w.jobs[chunk]), Said(w.jobs[chunk]);
    && Answers(h, s, chunk, g, a, read) && s' == PassLeaves(h, w.books, s, chunk, g, a, read)
    && Consistent(h.conflicts, s'.shadow)
  }

  /** What the last pass left the chunk owing. */
  function LeftOf(j: Job): (keys: seq<int>)
  {
    if StillOwed(Now(j)).Some? then StillOwed(Now(j)).value else []
  }

  /** What one worker's action does to the shadow and to where the copy stands. */
  ghost predicate Worked(h: History, w: Shop, s: State, a: Act, s': State)
  {
    match a
    case TakeChunk(chunk, server) =>
      s' == if StartsAtFrontier(w.books, chunk) then s.(phase := Claiming(s, chunk)) else s
    case MakePass(chunk) =>
      if Passable(w, chunk) && Said(w.jobs[chunk]).Committed?
      then exists read: Key -> nat :: PassMade(h, w, s, chunk, read, s')
      else s' == s
    case SettlePass(chunk) =>
      s' == if Settleable(w, chunk) then s.(phase := Landing(w.books, s, chunk, LeftOf(w.jobs[chunk]))) else s
    case LandChunk(chunk) =>
      s' == if Landable(w, chunk) then s.(phase := Landing(w.books, s, chunk, [])) else s
  }

  // ------------------------------------------------------- the ledger and the protocol, tied together

  /** The keys of a chunk in flight are claimed, but for those the last pass copied and the ledger does not say so
      yet; what the chunk owes lies in it. */
  ghost predicate Waits(w: Shop, phase: Key -> Phase, c: ChunkRange)
    requires c in w.jobs
  {
    var j := w.jobs[c];
    && (forall k :: Covers(c, k) && Standing(w.books, k) == KeyInFlight ==>
          if (Now(j).Done? || j.owing) && k !in LeftOf(j) then phase(k).Copied? else phase(k).Claimed?)
    && (forall k :: k in LeftOf(j) ==> Covers(c, k))
  }

  ghost predicate AllWait(w: Shop, phase: Key -> Phase)
  {
    forall c :: c in w.books.inFlight ==> c in w.jobs && Waits(w, phase, c)
  }

  ghost predicate BooksHold(from: Watermark, w: Shop, p: Past)
  {
    Exact(from, w.books, p) && Agrees(w, p)
  }

  ghost predicate Tied(w: Shop, phase: Key -> Phase)
  {
    (exists from, p :: BooksHold(from, w, p)) && Mirrors(w.books, phase) && AllWait(w, phase)
  }

  lemma ClaimTies(from: Watermark, w: Shop, p: Past, s: State, chunk: Chunk, server: nat -> Answer)
    requires BooksHold(from, w, p) && Mirrors(w.books, s.phase) && AllWait(w, s.phase)
    requires StartsAtFrontier(w.books, chunk)
    ensures Protocol.Claims(s, s.(phase := Claiming(s, chunk)))
    ensures var w' := Perform(w, TakeChunk(chunk, server));
            Mirrors(w'.books, Claiming(s, chunk)) && AllWait(w', Claiming(s, chunk))
  {
    ClaimIsStep(from, w.books, p, chunk, s);
    var w' := Perform(w, TakeChunk(chunk, server));
    forall c | c in w'.books.inFlight ensures c in w'.jobs && Waits(w', Claiming(s, chunk), c) {
      if c != chunk {
        assert Waits(w, s.phase, c);
        forall k | Covers(c, k) ensures Standing(w'.books, k) == Standing(w.books, k) && !Covers(chunk, k) {
          ClaimMovesForward(from, w.books, p, chunk, k);
          NotUncut(from, w.books, p, c, k);
        }
      }
    }
  }

  lemma LandTies(from: Watermark, w: Shop, p: Past, s: State, chunk: ChunkRange)
    requires BooksHold(from, w, p) && Mirrors(w.books, s.phase) && AllWait(w, s.phase) && Landable(w, chunk)
    ensures var s', w' := s.(phase := Landing(w.books, s, chunk, [])), Perform(w, LandChunk(chunk));
            Protocol.Lands(s, s') && Mirrors(w'.books, s'.phase) && AllWait(w', s'.phase)
  {
    var total := Now(w.jobs[chunk]).total;
    assert Waits(w, s.phase, chunk);
    LandIsStep(from, w.books, p, chunk, total, s);
    var s', w' := s.(phase := Landing(w.books, s, chunk, [])), Perform(w, LandChunk(chunk));
    forall c | c in w'.books.inFlight ensures c in w'.jobs && Waits(w', s'.phase, c) {
      StillInFlight(from, w.books, p, chunk, total, c);
      assert Waits(w, s.phase, c);
      forall k | Covers(c, k) ensures Standing(w'.books, k) == Standing(w.books, k) && !Covers(chunk, k) {
        if Covers(chunk, k) { OneCovers(w.books, c, chunk, k); }
        LandMovesForward(from, w.books, p, chunk, total, k);
      }
    }
  }

  /** A key of a chunk in flight is in flight exactly when the ledger has it owed. */
  lemma InFlightIsOwed(from: Watermark, b: Books, p: Past, chunk: ChunkRange, k: Key)
    requires Exact(from, b, p) && chunk in b.inFlight && Covers(chunk, k)
    ensures Standing(b, k) == KeyInFlight <==> (chunk in b.partial ==> k in b.partial[chunk].pending)
  {
    BelowCut(from, b, p, chunk);
    ClassifyIsExact(b, k);
    assert Owes(b, chunk, k) <==> (chunk in b.partial ==> k in b.partial[chunk].pending);
    forall c | Owes(b, c, k) ensures c == chunk {
      OneCovers(b, c, chunk, k);
    }
  }

  /** While its worker may make a pass, that is what the worker takes it to owe. */
  lemma InFlightIsLeft(from: Watermark, w: Shop, p: Past, chunk: ChunkRange, k: Key)
    requires BooksHold(from, w, p) && Passable(w, chunk) && Covers(chunk, k)
    ensures var owed := StillOwed(Now(w.jobs[chunk]));
            Standing(w.books, k) == KeyInFlight <==> (owed.Some? ==> k in owed.value)
  {
    assert JobAt(w, p, chunk);
    InFlightIsOwed(from, w.books, p, chunk, k);
  }

  /** What a committed pass makes of the chunk: complete, or owing what it left out, all of it owed before. */
  lemma PassLeft(g: Progress, a: Answer, k: Key)
    requires Open(g) && a.Committed?
    ensures LeftBehind(g, a) == [] ==> Take(g, a).Done?
    ensures LeftBehind(g, a) != [] ==> Take(g, a).Around? && Take(g, a).owed == Some(LeftBehind(g, a))
    ensures k in LeftBehind(g, a) ==> k in Listed(g, a)
  {
    KeptIs(Listed(g, a), a.blocked, k);
  }

  /** The rows a committed pass inserts are exactly those of the keys it passes over. */
  lemma PassedRow(h: History, from: Watermark, w: Shop, p: Past, s: State, chunk: ChunkRange, read: Key -> nat, k: Key)
    requires BooksHold(from, w, p) && Passable(w, chunk) && Said(w.jobs[chunk]).Committed? && Waits(w, s.phase, chunk)
    requires Answers(h, s, chunk, Now(w.jobs[chunk]), Said(w.jobs[chunk]), read)
    ensures var g, a := Now(w.jobs[chunk]), Said(w.jobs[chunk]);
            var m := PassLeaves(h, w.books, s, chunk, g, a, read);
            if PassedOver(w.books, chunk, LeftBehind(g, a), k)
            then s.phase(k).Claimed? && m.phase(k).Copied? && CopiedRow(h, s, m, k, read(k))
            else m.phase(k) == s.phase(k) && SameRow(s, m, k)
  {
    if Covers(chunk, k) {
      InFlightIsLeft(from, w, p, chunk, k);
    }
  }

  lemma PassIsCopy(h: History, from: Watermark, w: Shop, p: Past, s: State, chunk: ChunkRange, read: Key -> nat)
    requires BooksHold(from, w, p) && Mirrors(w.books, s.phase) && s.now <= |h.log|
    requires Passable(w, chunk) && Said(w.jobs[chunk]).Committed? && Waits(w, s.phase, chunk)
    requires Answers(h, s, chunk, Now(w.jobs[chunk]), Said(w.jobs[chunk]), read)
    requires var m := PassLeaves(h, w.books, s, chunk, Now(w.jobs[chunk]), Said(w.jobs[chunk]), read);
             Consistent(h.conflicts, m.shadow)
    ensures var m := PassLeaves(h, w.books, s, chunk, Now(w.jobs[chunk]), Said(w.jobs[chunk]), read);
            Copies(h, s, m) && Mirrors(w.books, m.phase)
  {
    var g, a := Now(w.jobs[chunk]), Said(w.jobs[chunk]);
    var m := PassLeaves(h, w.books, s, chunk, g, a, read);
    forall k
      ensures PassedOver(w.books, chunk, LeftBehind(g, a), k) ==>
                s.phase(k).Claimed? && m.phase(k).Copied? && CopiedRow(h, s, m, k, read(k))
      ensures !PassedOver(w.books, chunk, LeftBehind(g, a), k) ==> m.phase(k) == s.phase(k) && SameRow(s, m, k)
    {
      PassedRow(h, from, w, p, s, chunk, read, k);
    }
    CopyIsStep(h, w.books, chunk, LeftBehind(g, a), s, m, read);
  }

  /** A worker's pass concerns its own chunk only. */
  lemma OthersWait(w: Shop, w': Shop, phase: Key -> Phase, phase': Key -> Phase, chunk: ChunkRange)
    requires InOrder(w.books.inFlight) && AllWait(w, phase) && chunk in w.books.inFlight
    requires w'.books.inFlight == w.books.inFlight && chunk in w'.jobs && Waits(w', phase', chunk)
    requires forall c :: c in w.jobs && c != chunk ==> c in w'.jobs && w'.jobs[c] == w.jobs[c]
    requires forall k :: !Covers(chunk, k) ==> phase'(k) == phase(k) && Standing(w'.books, k) == Standing(w.books, k)
    ensures AllWait(w', phase')
  {
    forall c | c in w'.books.inFlight && c != chunk ensures c in w'.jobs && Waits(w', phase', c) {
      assert Waits(w, phase, c);
      forall k | Covers(c, k) ensures !Covers(chunk, k) {
        if Covers(chunk, k) { OneCovers(w.books, c, chunk, k); }
      }
    }
  }

  /** The worker's own account after its next pass. */
  lemma PassAdvances(w: Shop, chunk: ChunkRange)
    requires Passable(w, chunk)
    ensures var w', g := Perform(w, MakePass(chunk)), Take(Now(w.jobs[chunk]), Said(w.jobs[chunk]));
            && w'.books == w.books && chunk in w'.jobs && Now(w'.jobs[chunk]) == g
            && (w'.jobs[chunk].owing <==> Said(w.jobs[chunk]).Committed? && g.Around? && g.owed.Some?)
            && (forall c :: c in w.jobs && c != chunk ==> c in w'.jobs && w'.jobs[c] == w.jobs[c])
  {
    var j := w.jobs[chunk];
    assert After(j.server, j.made + 1) == Take(After(j.server, j.made), j.server(j.made + 1));
  }

  /** A pass that did not commit changes nothing but how often the chunk was tried. */
  lemma FailedPassTies(w: Shop, phase: Key -> Phase, chunk: ChunkRange)
    requires InOrder(w.books.inFlight) && AllWait(w, phase) && Passable(w, chunk) && !Said(w.jobs[chunk]).Committed?
    ensures AllWait(Perform(w, MakePass(chunk)), phase)
  {
    var w' := Perform(w, MakePass(chunk));
    PassAdvances(w, chunk);
    assert Waits(w, phase, chunk);
    assert Waits(w', phase, chunk);
    OthersWait(w, w', phase, phase, chunk);
  }

  /** What a pass leaves out lies in its chunk. */
  lemma LeftIsInside(h: History, w: Shop, s: State, chunk: ChunkRange, read: Key -> nat, k: Key)
    requires Passable(w, chunk) && Said(w.jobs[chunk]).Committed? && Waits(w, s.phase, chunk)
    requires Answers(h, s, chunk, Now(w.jobs[chunk]), Said(w.jobs[chunk]), read)
    requires k in LeftBehind(Now(w.jobs[chunk]), Said(w.jobs[chunk]))
    ensures Covers(chunk, k)
  {
    PassLeft(Now(w.jobs[chunk]), Said(w.jobs[chunk]), k);
  }

  /** A committed pass is the protocol's step that copies the keys it got in, and the ledger stands as it did. */
  lemma PassTies(h: History, from: Watermark, w: Shop, p: Past, s: State, chunk: ChunkRange, read: Key -> nat,
                 s': State)
    requires BooksHold(from, w, p) && Mirrors(w.books, s.phase) && AllWait(w, s.phase) && s.now <= |h.log|
    requires Passable(w, chunk) && Said(w.jobs[chunk]).Committed? && PassMade(h, w, s, chunk, read, s')
    ensures Copies(h, s, s') && Mirrors(w.books, s'.phase) && AllWait(Perform(w, MakePass(chunk)), s'.phase)
  {
    assert Waits(w, s.phase, chunk);
    PassIsCopy(h, from, w, p, s, chunk, read);
    var left := LeftBehind(Now(w.jobs[chunk]), Said(w.jobs[chunk]));
    forall k | k in left ensures Covers(chunk, k) {
      LeftIsInside(h, w, s, chunk, read, k);
    }
    PassLeavesWaiting(w, s, chunk, left);
  }

  lemma PassLeavesWaiting(w: Shop, s: State, chunk: ChunkRange, left: seq<int>)
    requires InOrder(w.books.inFlight) && AllWait(w, s.phase) && Passable(w, chunk) && Said(w.jobs[chunk]).Committed?
    requires left == LeftBehind(Now(w.jobs[chunk]), Said(w.jobs[chunk])) && forall k :: k in left ==> Covers(chunk, k)
    ensures AllWait(Perform(w, MakePass(chunk)), Passing(w.books, s, chunk, left))
  {
    var phase, w' := Passing(w.books, s, chunk, left), Perform(w, MakePass(chunk));
    PassLeft(Now(w.jobs[chunk]), Said(w.jobs[chunk]), 0);
    PassAdvances(w, chunk);
    assert Waits(w, s.phase, chunk);
    assert Waits(w', phase, chunk);
    OthersWait(w, w', s.phase, phase, chunk);
  }

  /** Recording a pass is the protocol's step that lands the keys it copied. */
  lemma SettleTies(from: Watermark, w: Shop, p: Past, s: State, chunk: ChunkRange)
    requires BooksHold(from, w, p) && Mirrors(w.books, s.phase) && AllWait(w, s.phase) && Settleable(w, chunk)
    ensures var s', w' := s.(phase := Landing(w.books, s, chunk, LeftOf(w.jobs[chunk]))), Perform(w, SettlePass(chunk));
            Protocol.Lands(s, s') && Mirrors(w'.books, s'.phase) && AllWait(w', s'.phase)
  {
    var left, total := LeftOf(w.jobs[chunk]), Now(w.jobs[chunk]).total;
    var s', w' := s.(phase := Landing(w.books, s, chunk, left)), Perform(w, SettlePass(chunk));
    SettleAgrees(w, p, chunk);
    PassNarrows(w, p, chunk);
    assert Waits(w, s.phase, chunk);
    forall k | k in left ensures Standing(w.books, k) == KeyInFlight {
      InFlightIsOwed(from, w.books, p, chunk, k);
    }
    SettleIsStep(from, w.books, p, chunk, total, left, s);
    forall k ensures Covers(chunk, k) ==> (Standing(w'.books, k) == KeyInFlight <==> k in left)
             ensures !Covers(chunk, k) ==> Standing(w'.books, k) == Standing(w.books, k)
    {
      SettleMovesForward(from, w.books, p, chunk, total, left, k);
    }
    assert Waits(w', s'.phase, chunk);
    OthersWait(w, w', s.phase, s'.phase, chunk);
  }

  lemma PassIsStep(h: History, from: Watermark, w: Shop, p: Past, s: State, chunk: ChunkRange, s': State)
    requires BooksHold(from, w, p) && Mirrors(w.books, s.phase) && AllWait(w, s.phase) && s.now <= |h.log|
    requires Worked(h, w, s, MakePass(chunk), s')
    ensures s' == s || Copies(h, s, s')
    ensures Mirrors(w.books, s'.phase) && AllWait(Perform(w, MakePass(chunk)), s'.phase)
  {
    if Passable(w, chunk) {
      if Said(w.jobs[chunk]).Committed? {
        var read: Key -> nat :| PassMade(h, w, s, chunk, read, s');
        PassTies(h, from, w, p, s, chunk, read, s');
      } else {
        FailedPassTies(w, s.phase, chunk);
      }
    }
  }

  lemma RecordIsStep(h: History, from: Watermark, w: Shop, p: Past, s: State, a: Act, s': State)
    requires BooksHold(from, w, p) && Mirrors(w.books, s.phase) && AllWait(w, s.phase)
    requires !a.MakePass? && Worked(h, w, s, a, s')
    ensures s' == s || Protocol.Claims(s, s') || Protocol.Lands(s, s')
    ensures Mirrors(Perform(w, a).books, s'.phase) && AllWait(Perform(w, a), s'.phase)
  {
    match a
    case TakeChunk(chunk, server) =>
      if StartsAtFrontier(w.books, chunk) {
        ClaimTies(from, w, p, s, chunk, server);
      }
    case SettlePass(chunk) =>
      if Settleable(w, chunk) {
        SettleTies(from, w, p, s, chunk);
      }
    case LandChunk(chunk) =>
      if Landable(w, chunk) {
        LandTies(from, w, p, s, chunk);
      }
  }

  /** Whatever a worker does is a step of the protocol, or nothing, and leaves ledger and protocol tied. */
  lemma ActIsStep(h: History, w: Shop, s: State, a: Act, s': State)
    requires s.now <= |h.log| && Tied(w, s.phase) && Worked(h, w, s, a, s') && (a.TakeChunk? ==> Orderly(a.server))
    ensures (s' == s || Elsewhere(h, s, s')) && Tied(Perform(w, a), s'.phase)
  {
    var from, p :| BooksHold(from, w, p);
    if a.MakePass? {
      PassIsStep(h, from, w, p, s, a.chunk, s');
    } else {
      RecordIsStep(h, from, w, p, s, a, s');
    }
    var p' := PerformKeeps(from, w, p, a);
    assert BooksHold(from, Perform(w, a), p');
  }

  /** A resumed copy begins tied to the protocol it restarts. */
  lemma ResumeTies(w: Shop, saved: Watermark, s: State, s': State)
    requires Tied(w, s.phase) && (forall k: int64 :: saved.Reaches(k) ==> Snapshot(w.books).watermark.Reaches(k))
    requires Resumes(s, s', saved) && forall k :: k in s.shadow ==> MIN_KEY <= k <= MAX_KEY
    ensures Restarts(s, s') && Tied(Shop(NewBooks(saved), map[]), s'.phase)
  {
    var from, p :| BooksHold(from, w, p);
    ResumeIsStep(from, w.books, p, saved, s, s');
    NewTies(saved, s'.phase);
  }

  lemma NewTies(from: Watermark, phase: Key -> Phase)
    requires Mirrors(NewBooks(from), phase)
    ensures Tied(Shop(NewBooks(from), map[]), phase)
  {
    NewIsExact(from);
    assert BooksHold(from, Shop(NewBooks(from), map[]), Past([], 0, map[]));
  }

  /** A snapshot whose watermark has reached the last key says the copy is over. */
  lemma FinishedIsLanded(w: Shop, phase: Key -> Phase)
    requires Tied(w, phase) && Snapshot(w.books).watermark.Complete()
    ensures forall k: int64 :: phase(k).Landed?
  {
    var from, p :| BooksHold(from, w, p);
    forall k: int64 ensures phase(k).Landed? {
      SnapshotIsRight(from, w.books, p);
    }
  }
}
