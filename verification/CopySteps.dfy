/** The copier's ledger as the protocol's phases: what the workers do to the books, and what a resumed run
    starts from, are steps of the protocol (pkg/copier/ledger.go, position.go, resume.go). */
module CopySteps {
  import opened Options
  import opened Rows
  import opened Entries
  import opened Protocol
  import opened Copying
  import opened Ledger
  import opened Copier
  import opened Draining
  import opened DrainOrder

  /** The ledger's snapshot classifies every key as the protocol's phase of it. */
  ghost predicate Mirrors(b: Books, phase: Key -> Phase)
  {
    forall k: int64 :: Standing(b, k) == Phased(phase(k))
  }

  /** The key is in flight in the chunk and no longer pending once the pass is over. */
  predicate PassedOver(b: Books, chunk: ChunkRange, pending: seq<int>, k: Key)
  {
    Covers(chunk, k) && Standing(b, k) == KeyInFlight && k !in pending
  }

  /** The keys of the chunk have their rows read from now on. */
  function Claiming(s: State, chunk: ChunkRange): (phase: Key -> Phase)
  {
    k => if Covers(chunk, k) then Claimed(s.seen(k)) else s.phase(k)
  }

  /** What a committed pass copied counts as landed. */
  function Landing(b: Books, s: State, chunk: ChunkRange, pending: seq<int>): (phase: Key -> Phase)
  {
    k => if PassedOver(b, chunk, pending, k) then Landed else s.phase(k)
  }

  /** A claim the ledger accepts claims exactly keys the protocol holds uncut. */
  lemma ClaimIsStep(from: Watermark, b: Books, p: Past, chunk: Chunk, s: State)
    requires Exact(from, b, p) && StartsAtFrontier(b, chunk) && Mirrors(b, s.phase)
    ensures Protocol.Claims(s, s.(phase := Claiming(s, chunk)))
    ensures Mirrors(Ledger.Claim(b, chunk), Claiming(s, chunk))
  {
    forall k: int64
      ensures Covers(chunk, k) ==> s.phase(k).Uncut?
      ensures Standing(Ledger.Claim(b, chunk), k) == Phased(Claiming(s, chunk)(k))
    {
      ClaimMovesForward(from, b, p, chunk, k);
    }
  }

  /** The row a pass leaves at a key it copied: the shadow's own where it holds one, else the source's as
      the pass read it. */
  ghost predicate CopiedRow(h: History, s: State, s': State, k: Key, read: nat)
    requires s.phase(k).Claimed?
  {
    if k in s.shadow then SameRow(s, s', k)
    else
      && s.phase(k).since <= read <= s.seen(k) && read <= s.now
      && RowAt(s'.shadow, k) == Shown(At(h, read, k), h.writable)
  }

  /** A pass that commits copies the keys its chunk owes but the ones it leaves out, and moves no key in
      the ledger until it is recorded. */
  lemma CopyIsStep(h: History, b: Books, chunk: ChunkRange, pending: seq<int>, s: State, s': State, read: Key -> nat)
    requires Mirrors(b, s.phase) && s.now <= |h.log|
    requires forall k :: PassedOver(b, chunk, pending, k) ==> s.phase(k).Claimed?
    requires s' == s.(phase := s'.phase, shadow := s'.shadow) && Consistent(h.conflicts, s'.shadow)
    requires forall k :: PassedOver(b, chunk, pending, k) ==> s'.phase(k).Copied? && CopiedRow(h, s, s', k, read(k))
    requires forall k :: !PassedOver(b, chunk, pending, k) ==> s'.phase(k) == s.phase(k) && SameRow(s, s', k)
    ensures Copies(h, s, s') && Mirrors(b, s'.phase)
  {
    forall k ensures (s'.phase(k) == s.phase(k) && SameRow(s, s', k)) || CopiedKey(h, s, s', k) {
      assert PassedOver(b, chunk, pending, k) ==> CopiedRow(h, s, s', k, read(k));
    }
    forall k: int64 ensures Standing(b, k) == Phased(s'.phase(k)) {
      var over := PassedOver(b, chunk, pending, k);
    }
  }

  /** Recording a pass lands exactly the keys it copied. */
  lemma SettleIsStep(from: Watermark, b: Books, p: Past, chunk: ChunkRange, total: int, pending: seq<int>, s: State)
    requires Exact(from, b, p) && chunk in b.inFlight && pending != [] && Mirrors(b, s.phase)
    requires forall k :: PassedOver(b, chunk, pending, k) ==> s.phase(k).Copied?
    requires forall k :: k in pending && Covers(chunk, k) ==> Standing(b, k) == KeyInFlight
    ensures Protocol.Lands(s, s.(phase := Landing(b, s, chunk, pending)))
    ensures Mirrors(Ledger.Settle(b, chunk, total, pending), Landing(b, s, chunk, pending))
  {
    forall k: int64
      ensures Standing(Ledger.Settle(b, chunk, total, pending), k) == Phased(Landing(b, s, chunk, pending)(k))
    {
      SettleMovesForward(from, b, p, chunk, total, pending, k);
      if Covers(chunk, k) { NotUncut(from, b, p, chunk, k); }
    }
  }

  /** Landing a chunk lands every key of it that was still in flight. */
  lemma LandIsStep(from: Watermark, b: Books, p: Past, chunk: ChunkRange, total: int, s: State)
    requires Exact(from, b, p) && chunk in b.inFlight && Mirrors(b, s.phase)
    requires forall k :: PassedOver(b, chunk, [], k) ==> s.phase(k).Copied?
    ensures Protocol.Lands(s, s.(phase := Landing(b, s, chunk, [])))
    ensures Mirrors(Ledger.Land(b, chunk, total), Landing(b, s, chunk, []))
  {
    forall k: int64 ensures Standing(Ledger.Land(b, chunk, total), k) == Phased(Landing(b, s, chunk, [])(k)) {
      LandMovesForward(from, b, p, chunk, total, k);
      if Covers(chunk, k) { NotUncut(from, b, p, chunk, k); }
    }
  }

  lemma NotUncut(from: Watermark, b: Books, p: Past, chunk: ChunkRange, key: int)
    requires Exact(from, b, p) && chunk in b.inFlight && Covers(chunk, key)
    ensures Standing(b, key) != KeyUncut
  {
    BelowCut(from, b, p, chunk);
    ClassifyIsExact(b, key);
  }

  /** A stream started again at or below the position kept, an empty buffer, and the shadow cleared above the
      watermark saved. */
  ghost predicate Resumes(s: State, s': State, saved: Watermark)
  {
    && s'.delivered == s'.position == s'.resume <= s.resume && s'.confirmed == 0
    && s'.now == s.now && s'.seen == s.seen
    && s'.buf == EMPTY && s'.notes == map[] && s'.batch.None?
    && s'.shadow == (map k | k in s.shadow && saved.Reaches(k) :: s.shadow[k])
    && s'.phase == Resumed(saved)
  }

  /** A run stopped anywhere and resumed from a watermark at or below the one its ledger's snapshot reports, with the
      shadow cleared above it, is a restart of the protocol, and the new ledger stands where the protocol then does. */
  lemma ResumeIsStep(from: Watermark, b: Books, p: Past, saved: Watermark, s: State, s': State)
    requires Exact(from, b, p) && Mirrors(b, s.phase)
    requires forall k: int64 :: saved.Reaches(k) ==> Snapshot(b).watermark.Reaches(k)
    requires forall k :: k in s.shadow ==> MIN_KEY <= k <= MAX_KEY
    requires Resumes(s, s', saved)
    ensures Restarts(s, s') && Mirrors(NewBooks(saved), s'.phase)
  {
    forall k: int64 | saved.Reaches(k) ensures s.phase(k).Landed? {
      SnapshotIsRight(from, b, p);
    }
    assert ResumesWith(s, s', k => MIN_KEY <= k <= MAX_KEY && saved.Reaches(k));
  }

  /** A resumed copy takes the keys its watermark reaches for landed and every other for uncut. */
  function Resumed(saved: Watermark): (phase: Key -> Phase)
  {
    k => if MIN_KEY <= k <= MAX_KEY && saved.Reaches(k) then Landed else Uncut
  }

  /** The copier's answer about a key, from one snapshot of its ledger. */
  function Answering(b: Books): (classify: Key -> KeyState)
  {
    k => Classify(Snapshot(b), k)
  }

  /** The drain as coded, judging keys by a snapshot of the ledger read when the protocol was observed, takes
      what the protocol lets a drain take, whatever the workers have done to the ledger since. */
  lemma DrainIsTaken(b: Books, v: View, s: State, state: Judged, s': State)
    requires v.Observed? && Mirrors(b, v.phase)
    requires s.notes.Keys == s.buf.entries.Keys && (forall k :: k in s.buf.entries ==> MIN_KEY <= k <= MAX_KEY)
    requires var entries := s.buf.entries;
             IsLeast(entries, Unseen(entries, v.visible), Judge(entries, Answering(b), v.visible), state)
    requires s.batch.None?
    requires var d := Split(s.buf, state, Unseen(s.buf.entries, v.visible));
             s' == s.(buf := s.buf.(entries := s.buf.entries - d.discarded), notes := s.notes - d.discarded,
                      batch := Some(Batch(d.flushed, v.since)))
    ensures Takes(s, s', v)
  {
    forall k | k in s.buf.entries ensures Answering(b)(k) == Phased(v.phase(k)) {
      var key: int64 := k;
      assert Standing(b, key) == Phased(v.phase(key));
    }
    DrainIsChoice(s.(phase := v.phase), Answering(b), state, v.visible, s');
  }
}
