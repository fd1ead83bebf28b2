/** A catch-up cycle as coded (pkg/applier/catchup.go) is a run of the protocol: what it gathers, releases, drains,
    flushes or puts back, and confirms are steps, with the copier and the source acting between the drain and the
    flush. */
module CycleSteps {
  import opened Options
  import opened Rows
  import opened Entries
  import opened Protocol
  import opened Invariant
  import opened Delivery
  import opened Convergence
  import opened Copying
  import opened Ledger
  import opened Draining
  import opened DrainOrder
  import opened Buffer
  import opened CopySteps
  import opened Catchup

  // ------------------------------------------------------- what the stream brings

  /** The stream hands over the next change of the source, or a position it has passed. */
  ghost predicate Feeds(h: History, s: State, d: Handover, s': State)
    requires |h.xids| == |h.log|
  {
    match d
    case Progress(lsn) => Progresses(s, s') && s'.position == lsn
    case Change(ev) => Delivers(h, s, s') && MoveIsRight(h, s) && ev == NextEvent(h, s)
  }

  ghost predicate FeedsAll(h: History, path: seq<State>, ds: seq<Handover>)
    requires |h.xids| == |h.log|
  {
    |path| == |ds| + 1 && forall i :: 0 <= i < |ds| ==> FeedsAt(h, path, ds, i)
  }

  ghost predicate FeedsAt(h: History, path: seq<State>, ds: seq<Handover>, i: nat)
    requires i < |ds| && i + 1 < |path| && |h.xids| == |h.log|
  {
    Feeds(h, path[i], ds[i], path[i + 1])
  }

  /** Nothing but what the stream brings has changed. */
  ghost predicate OnlyFed(s: State, s': State)
  {
    s' == s.(delivered := s'.delivered, position := s'.position, buf := s'.buf, notes := s'.notes)
  }

  /** What the cycle gathers is what the protocol delivers. */
  lemma {:induction false} GatherIsRun(h: History, path: seq<State>, ds: seq<Handover>, i: nat)
    requires |h.xids| == |h.log| && FeedsAll(h, path, ds) && Reachable(h, path[0]) && i <= |ds|
    ensures Reachable(h, path[i]) && OnlyFed(path[0], path[i])
    ensures Gathered(path[0].buf, ds) == Gathered(path[i].buf, ds[i..])
    ensures Progressed(path[0].position, ds) == Progressed(path[i].position, ds[i..])
  {
    if i == 0 {
      assert ds[0..] == ds;
    } else {
      GatherIsRun(h, path, ds, i - 1);
      assert FeedsAt(h, path, ds, i - 1);
      assert ds[i - 1..][1..] == ds[i..];
      FedReaches(h, path[i - 1], ds[i - 1], path[i]);
    }
  }

  lemma FedReaches(h: History, s: State, d: Handover, s': State)
    requires |h.xids| == |h.log| && Reachable(h, s) && Feeds(h, s, d, s')
    ensures Reachable(h, s')
  {
    StepReaches(h, s, s');
  }

  // ------------------------------------------------------- drain, flush, confirm

  lemma ReleaseIsRun(h: History, s: State)
    requires |h.xids| == |h.log| && Reachable(h, s) && s.batch.None?
    ensures Reachable(h, Caught(s))
  {
    var s' := Caught(s);
    assert Releases(s, s') && !Delivers(h, s, s');
    StepReaches(h, s, s');
  }

  /** The protocol's state while the cycle holds `batch`, with `rest` left in its buffer. */
  ghost predicate HandedOver(d: State, batch: map<Key, Entry>, rest: Buf)
  {
    && d.batch.Some? && batch == Only(d.buf.entries, d.batch.value.keys)
    && rest == Buf(d.buf.entries - d.batch.value.keys, d.buf.pending)
  }

  lemma EntriesFit(h: History, s: State)
    requires LegalHistory(h) && Keyed(h) && Inv(h, s)
    ensures forall k :: k in s.buf.entries ==> MIN_KEY <= k <= MAX_KEY
  {
    forall k | k in s.buf.entries ensures MIN_KEY <= k <= MAX_KEY {
      if !(MIN_KEY <= k <= MAX_KEY) { OutsideIsEmpty(h, s, k); }
    }
  }

  /** The state a drain with this judgement leaves. */
  function Handing(s: State, visible: nat -> bool, state: Judged): (d: State)
    requires state.Keys == s.buf.entries.Keys
  {
    var p := Split(s.buf, state, Unseen(s.buf.entries, visible));
    s.(buf := s.buf.(entries := s.buf.entries - p.discarded), notes := s.notes - p.discarded,
       batch := Some(Batch(p.flushed, s.seen)))
  }

  /** The batch the cycle drains, judging keys by the ledger, is one the protocol hands over. */
  lemma DrainIsRun(h: History, s: State, b: Books, visible: nat -> bool, state: Judged, batch: map<Key, Entry>,
                   rest: Buf)
    requires LegalHistory(h) && Keyed(h) && Reachable(h, s) && s.batch.None?
    requires Mirrors(b, s.phase) && SoundSnapshot(h, s, visible)
    requires DrainedBy(s.buf, Answering(b), visible, state, batch, rest)
    ensures Reachable(h, Handing(s, visible, state)) && HandedOver(Handing(s, visible, state), batch, rest)
  {
    ReachableHolds(h, s);
    EntriesFit(h, s);
    var v, p := Observed(visible, s.phase, s.seen), Split(s.buf, state, Unseen(s.buf.entries, visible));
    var d := Handing(s, visible, state);
    DrainIsTaken(b, v, s, state, d);
    ObservedIsDrainable(h, s, visible);
    DrainedParts(s.buf, p, d, batch, rest);
  }

  lemma DrainedParts(b: Buf, p: Drained, d: State, batch: map<Key, Entry>, rest: Buf)
    requires p.flushed <= b.entries.Keys && p.flushed !! p.discarded
    requires d.buf == b.(entries := b.entries - p.discarded) && d.batch.Some? && d.batch.value.keys == p.flushed
    requires batch == Only(b.entries, p.flushed) && rest == Buf(b.entries - (p.flushed + p.discarded), b.pending)
    ensures HandedOver(d, batch, rest)
  {
    assert Only(d.buf.entries, p.flushed) == batch;
    assert d.buf.entries - p.flushed == rest.entries;
  }

  /** What the protocol's flush would leave. */
  lemma FlushWrites(h: History, d: State, read: Key -> nat)
    requires LegalHistory(h) && Reachable(h, d) && d.batch.Some?
    requires forall k :: d.batch.value.since(k) <= read(k) <= d.seen(k)
    ensures Writes(h, d, Flusher.Settled(h, d, Flusher.Reading(h, read)))
  {
    ReachableHolds(h, d);
    NeverRefused(h, d, read);
    Flusher.FlushIsStep(h, d, read);
  }

  /** What the cycle writes and holds, or puts back, is what the protocol does. */
  lemma FlushIsRun(h: History, d: State, read: Key -> nat, batch: map<Key, Entry>, rest: Buf, r: Applied, shadow: Table,
                   b: Buf)
    returns (f: State)
    requires LegalHistory(h) && Reachable(h, d) && HandedOver(d, batch, rest) && (r.Wrote? || r.PutBack?)
    requires forall k :: d.batch.value.since(k) <= read(k) <= d.seen(k)
    requires Settles(h.writable, h.conflicts, d.shadow, Flusher.Reading(h, read), d.now, rest, batch, r, shadow, b)
    ensures Reachable(h, f) && f.buf == b && f.shadow == shadow && f.batch.None?
    ensures f == d.(buf := f.buf, notes := f.notes, batch := None, shadow := f.shadow)
  {
    var w := Flusher.Settled(h, d, Flusher.Reading(h, read));
    FlushWrites(h, d, read);
    RestIs(d, batch, rest);
    if r.Wrote? {
      f := w;
      WriteReaches(h, d, w);
    } else {
      f := Flusher.PutBack(h, d);
      DeferReaches(h, d, w);
    }
  }

  lemma RestIs(d: State, batch: map<Key, Entry>, rest: Buf)
    requires HandedOver(d, batch, rest)
    ensures d.buf.entries - batch.Keys == rest.entries
  {
  }

  lemma WriteReaches(h: History, d: State, w: State)
    requires |h.xids| == |h.log| && Reachable(h, d) && Writes(h, d, w) && Consistent(h.conflicts, w.shadow)
    ensures Reachable(h, w)
  {
    StepReaches(h, d, w);
  }

  lemma DeferReaches(h: History, d: State, w: State)
    requires |h.xids| == |h.log| && Reachable(h, d) && Writes(h, d, w) && !Consistent(h.conflicts, w.shadow)
    ensures Reachable(h, Flusher.PutBack(h, d))
  {
    Flusher.DeferIsStep(h, d, w);
    StepReaches(h, d, Flusher.PutBack(h, d));
  }

  lemma NeverRefused(h: History, d: State, read: Key -> nat)
    requires LegalHistory(h) && Reachable(h, d) && d.batch.Some?
    requires forall k :: d.batch.value.since(k) <= read(k) <= d.seen(k)
    ensures d.now <= |h.log|
    ensures forall k :: read(k) <= d.now
    ensures forall k :: k in Only(d.buf.entries, d.batch.value.keys) ==>
              !Flushing.FateOf(h.writable, d.shadow, At(h, read(k), k), k, d.buf.entries[k]).Refuse?
  {
    ReachableHolds(h, d);
    var run :| Run(h, run) && run[|run| - 1] == d;
    forall k | k in Only(d.buf.entries, d.batch.value.keys)
      ensures !Flushing.FateOf(h.writable, d.shadow, At(h, read(k), k), k, d.buf.entries[k]).Refuse?
    {
      AbsenceNeverRefused(h, run, |run| - 1, k, read(k));
    }
  }

  /** The highest position the cycle may confirm is the protocol's bound. */
  lemma ConfirmIsRun(h: History, s: State, lsn: nat) returns (s': State)
    requires LegalHistory(h) && Reachable(h, s) && s.batch.None?
    requires s.confirmed <= lsn <= s.position && AllAbove(s.buf.entries, lsn)
    requires forall l: nat :: l <= s.position && AllAbove(s.buf.entries, l) ==> l <= lsn
    ensures Reachable(h, s') && s'.confirmed == lsn
    ensures s' == s.(confirmed := s'.confirmed, resume := s'.resume)
  {
    if lsn != s.position {
      assert !AllAbove(s.buf.entries, lsn + 1);
    }
    assert IsConfirmBound(s, lsn);
    s' := if lsn <= s.confirmed then s else s.(confirmed := lsn, resume := if lsn > s.resume then lsn else s.resume);
    assert Confirms(s, s') && !Delivers(h, s, s');
    StepReaches(h, s, s');
  }

  // ------------------------------------------------------- the whole cycle

  /** The source commits, readers see more and the copier works on. */
  ghost predicate GoesOn(h: History, path: seq<State>)
  {
    |path| > 0 && forall i :: 0 <= i < |path| - 1 ==> GoesOnAt(h, path, i)
  }

  ghost predicate GoesOnAt(h: History, path: seq<State>, i: nat)
    requires i + 1 < |path|
  {
    Elsewhere(h, path[i], path[i + 1])
  }

  /** None of which touches what the catch-up holds. */
  lemma {:induction false} GoingOnReaches(h: History, path: seq<State>, i: nat)
    requires |h.xids| == |h.log| && GoesOn(h, path) && i < |path| && Reachable(h, path[0])
    ensures Reachable(h, path[i])
    ensures var s, s' := path[0], path[i];
            s' == s.(now := s'.now, seen := s'.seen, phase := s'.phase, shadow := s'.shadow)
  {
    if i > 0 {
      GoingOnReaches(h, path, i - 1);
      assert GoesOnAt(h, path, i - 1);
      assert path[i].delivered == path[i - 1].delivered;
      StepReaches(h, path[i - 1], path[i]);
    }
  }

  /** The state once the deliveries are in and the completions passed let in. */
  function Caught(s: State): (r: State)
  {
    s.(buf := Release(s.buf, s.position))
  }

  lemma UpToDrain(h: History, fed: seq<State>, ds: seq<Handover>, b: Books, visible: nat -> bool, state: Judged,
                  batch: map<Key, Entry>, rest: Buf)
    requires LegalHistory(h) && Keyed(h) && FeedsAll(h, fed, ds) && Reachable(h, fed[0]) && fed[0].batch.None?
    requires Mirrors(b, fed[|ds|].phase) && SoundSnapshot(h, fed[|ds|], visible)
    requires Gathered(fed[0].buf, ds).Some?
    requires DrainedBy(Release(Gathered(fed[0].buf, ds).value, Progressed(fed[0].position, ds)), Answering(b), visible,
                       state, batch, rest)
    requires Caught(fed[|ds|]).buf.entries.Keys == state.Keys
    ensures var d := Handing(Caught(fed[|ds|]), visible, state);
            && Reachable(h, d) && HandedOver(d, batch, rest) && d.batch.value.since == fed[|ds|].seen
            && d.position == Progressed(fed[0].position, ds) && d.confirmed == fed[0].confirmed
  {
    var g := fed[|ds|];
    GatherIsRun(h, fed, ds, |ds|);
    ReleaseIsRun(h, g);
    DrainIsRun(h, Caught(g), b, visible, state, batch, rest);
  }

  lemma FromDrain(h: History, others: seq<State>, batch: map<Key, Entry>, rest: Buf, read: Key -> nat, r: Applied,
                  shadow: Table, buf: Buf, lsn: nat)
    returns (s': State)
    requires LegalHistory(h) && GoesOn(h, others) && Reachable(h, others[0]) && HandedOver(others[0], batch, rest)
    requires forall k :: others[0].batch.value.since(k) <= read(k) <= others[|others| - 1].seen(k)
    requires r.Wrote? || r.PutBack?
    requires var e := others[|others| - 1];
             Settles(h.writable, h.conflicts, e.shadow, Flusher.Reading(h, read), e.now, rest, batch, r, shadow, buf)
    requires others[0].confirmed <= lsn <= others[0].position && AllAbove(buf.entries, lsn)
    requires forall l: nat :: l <= others[0].position && AllAbove(buf.entries, l) ==> l <= lsn
    ensures Reachable(h, s') && s'.buf == buf && s'.shadow == shadow && s'.confirmed == lsn
    ensures s'.position == others[0].position
  {
    GoingOnReaches(h, others, |others| - 1);
    var f := FlushIsRun(h, others[|others| - 1], read, batch, rest, r, shadow, buf);
    s' := ConfirmIsRun(h, f, lsn);
  }

  /** A cycle that is not paused and does not end the catch-up: it gathers along `fed`, drains by the ledger `b`, lets
      the world go on along `others`, flushes against the shadow it then finds, and confirms. What it leaves in
      buffer, shadow and confirmed position the protocol could leave as well. */
  lemma CycleIsRun(h: History, fed: seq<State>, ds: seq<Handover>, b: Books, visible: nat -> bool, state: Judged,
                   batch: map<Key, Entry>, rest: Buf, others: seq<State>, read: Key -> nat, r: Applied, shadow: Table,
                   buf: Buf, lsn: nat)
    returns (s': State)
    requires LegalHistory(h) && Keyed(h) && FeedsAll(h, fed, ds) && Reachable(h, fed[0]) && fed[0].batch.None?
    requires Mirrors(b, fed[|ds|].phase) && SoundSnapshot(h, fed[|ds|], visible)
    requires Gathered(fed[0].buf, ds).Some?
    requires DrainedBy(Release(Gathered(fed[0].buf, ds).value, Progressed(fed[0].position, ds)), Answering(b), visible,
                       state, batch, rest)
    requires Caught(fed[|ds|]).buf.entries.Keys == state.Keys
    requires GoesOn(h, others) && others[0] == Handing(Caught(fed[|ds|]), visible, state)
    requires forall k :: fed[|ds|].seen(k) <= read(k) <= others[|others| - 1].seen(k)
    requires r.Wrote? || r.PutBack?
    requires var e := others[|others| - 1];
             Settles(h.writable, h.conflicts, e.shadow, Flusher.Reading(h, read), e.now, rest, batch, r, shadow, buf)
    requires fed[0].confirmed <= lsn <= Progressed(fed[0].position, ds) && AllAbove(buf.entries, lsn)
    requires forall l: nat :: l <= Progressed(fed[0].position, ds) && AllAbove(buf.entries, l) ==> l <= lsn
    ensures Reachable(h, s') && s'.buf == buf && s'.shadow == shadow && s'.confirmed == lsn
    ensures s'.position == Progressed(fed[0].position, ds)
  {
    UpToDrain(h, fed, ds, b, visible, state, batch, rest);
    s' := FromDrain(h, others, batch, rest, read, r, shadow, buf, lsn);
  }
}
