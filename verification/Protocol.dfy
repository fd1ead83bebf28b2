/** The copy-and-replay protocol as a state machine.

    The source commits changes, readers come to see them, the stream delivers them into the buffer,
    the copier claims, reads and lands keys, the catch-up drains, flushes, holds, releases and
    confirms, and a run can stop at any moment and be resumed. Every interleaving of these steps is
    a run. */
module Protocol {
  import opened Options
  import opened Rows
  import opened Entries
  import opened Flushing

  /** Where the copy stands with one key. `Claimed(since)` remembers what readers could see of the
      key when its chunk was claimed; a `Copied` key is in a committed pass that has not landed. */
  datatype Phase = Uncut | Claimed(since: nat) | Copied | Landed

  /** Bookkeeping about a buffered entry that the program does not keep: the first change to the
      key it stands for, and the columns a deferred flush filled in place from the shadow row. */
  datatype Note = Note(first: nat, filled: set<Name>)

  /** Entries handed to a flush that has not ended, and what readers saw when they were drained. */
  datatype Batch = Batch(keys: set<Key>, since: Key -> nat)

  datatype State = State(
    now: nat,                 // changes the source has committed
    seen: Key -> nat,         // changes to a key a reader sees: all those below this index
    delivered: nat,           // changes the stream has handed over
    position: nat,            // the delivered position: every change below it was handed over
    confirmed: nat,           // the position this stream has confirmed
    resume: nat,              // the highest position a later stream may be started from
    buf: Buf,
    notes: map<Key, Note>,
    batch: Option<Batch>,
    phase: Key -> Phase,
    shadow: Table)

  // ---------------------------------------------------------------- steps

  ghost predicate Start(h: History, s: State)
  {
    && s.delivered == s.position == s.resume <= s.now <= |h.log|
    && s.confirmed == 0
    && s.buf == EMPTY && s.notes == map[] && s.batch.None?
    && s.shadow == map[]
    && (forall k :: s.seen(k) <= s.now && Quiet(h, k, s.seen(k), s.delivered))
    && (forall k :: s.phase(k) == Uncut)
  }

  ghost predicate Commits(h: History, s: State, s': State)
  {
    s.now < |h.log| && s' == s.(now := s.now + 1)
  }

  /** Readers come to see more, key by key in any order, but never less. */
  ghost predicate Shows(s: State, s': State)
  {
    && s' == s.(seen := s'.seen)
    && forall k :: s.seen(k) <= s'.seen(k) <= s.now
  }

  function NextEvent(h: History, s: State): (r: ChangeEvent)
    requires s.delivered < |h.log| == |h.xids|
  {
    Decode(h.log[s.delivered], s.position, h.xids[s.delivered])
  }

  function NoteOf(s: State, k: Key, ch: Change): (r: Note)
  {
    if k !in s.notes then Note(s.delivered, {})
    else if ch.Update? then
      Note(s.notes[k].first,
           set c | c in s.notes[k].filled && !(c in ch.cols && ch.cols[c].Has?))
    else Note(s.notes[k].first, {})
  }

  function NotesAfter(s: State, ch: Change): (r: map<Key, Note>)
  {
    if ch.Move? then s.notes[ch.key := NoteOf(s, ch.key, ch)][ch.oldKey := NoteOf(s, ch.oldKey, ch)]
    else s.notes[ch.key := NoteOf(s, ch.key, ch)]
  }

  ghost predicate Delivers(h: History, s: State, s': State)
    requires |h.xids| == |h.log|
  {
    && s.batch.None? && s.delivered < s.now <= |h.log|
    && var added := Add(s.buf, NextEvent(h, s));
    && added.Some?
    && s' == s.(delivered := s.delivered + 1, buf := added.value,
                notes := NotesAfter(s, h.log[s.delivered]))
  }

  /** The stream reports a position every change below which it has handed over. */
  ghost predicate Progresses(s: State, s': State)
  {
    s.position <= s'.position <= s.delivered && s' == s.(position := s'.position)
  }

  ghost predicate Releases(s: State, s': State)
  {
    s.batch.None? && s' == s.(buf := Release(s.buf, s.position))
  }

  /** What one snapshot shows visible, later reads see. */
  ghost predicate SoundSnapshot(h: History, s: State, visible: nat -> bool)
    requires |h.xids| == |h.log|
  {
    forall i, k :: 0 <= i < s.delivered && i < |h.log| && Touches(h.log[i], k) && visible(h.xids[i]) ==>
      i < s.seen(k)
  }

  /** A drain hands over landed keys and drops uncut ones; it touches no pending image, no image
      the snapshot does not show, and no key in flight. Which landed keys it holds back is
      Draining's business: every choice is allowed here. */
  ghost predicate Drains(h: History, s: State, s': State)
    requires |h.xids| == |h.log|
  {
    && s.batch.None?
    && s'.batch.Some?
    && s'.batch.value.since == s.seen
    && s'.buf.pending == s.buf.pending
    && s' == s.(buf := s'.buf, notes := s'.notes, batch := s'.batch)
    && exists visible: nat -> bool :: SoundSnapshot(h, s, visible) && DrainChoice(s, s', visible)
  }

  ghost predicate DrainChoice(s: State, s': State, visible: nat -> bool)
    requires s'.batch.Some?
  {
    && s'.notes.Keys == s.notes.Keys * s'.buf.entries.Keys
    && (forall k :: k in s'.notes ==> s'.notes[k] == s.notes[k])
    && s'.buf.entries.Keys <= s.buf.entries.Keys
    && (forall k :: k in s'.buf.entries ==> s'.buf.entries[k] == s.buf.entries[k])
    && (forall k :: k in s.buf.entries && k !in s'.buf.entries ==>
          k !in s.buf.pending && visible(s.buf.entries[k].xid) && s.phase(k) == Uncut)
    && (forall k :: k in s'.batch.value.keys ==>
          k in s'.buf.entries && k !in s.buf.pending && visible(s.buf.entries[k].xid) && s.phase(k) == Landed)
  }

  /** A flush commits when what it leaves in the shadow breaks no constraint (Flusher shows that its
      two ways of writing come to exactly this). */
  ghost predicate Flushes(h: History, s: State, s': State)
    requires |h.xids| == |h.log|
  {
    Writes(h, s, s') && Consistent(h.conflicts, s'.shadow)
  }

  /** What a flush would leave: its writes in the shadow, and buffered the entries it was not handed
      and those it held. */
  ghost predicate Writes(h: History, s: State, s': State)
    requires |h.xids| == |h.log|
  {
    && s.batch.Some? && s'.batch.None? && s.now <= |h.log|
    && s' == s.(buf := s'.buf, notes := s'.notes, batch := None, shadow := s'.shadow)
    && exists read: Key -> nat :: FlushReads(h, s, s', read)
  }

  ghost predicate FlushReads(h: History, s: State, s': State, read: Key -> nat)
    requires s.batch.Some? && s.now <= |h.log|
  {
    forall k ::
      && s.batch.value.since(k) <= read(k) <= s.seen(k) && read(k) <= s.now
      && FlushKey(h, s, s', k, At(h, read(k), k))
  }

  ghost predicate FlushKey(h: History, s: State, s': State, k: Key, source: Option<Row>)
    requires s.batch.Some?
  {
    if k in s.batch.value.keys && k in s.buf.entries then
      match FateOf(h.writable, s.shadow, source, k, s.buf.entries[k])
      case WriteDelete => k !in s'.shadow && Gone(s', k)
      case WriteImage =>
        && k in s'.shadow && Gone(s', k)
        && s'.shadow[k] == WrittenRow(h.writable, s.shadow, k, s.buf.entries[k].columns)
      case Hold(completed) =>
        && SameRow(s, s', k) && KeptNote(s, s', k)
        && k in s'.buf.entries && s'.buf.entries[k] == s.buf.entries[k]
        && k in s'.buf.pending && s'.buf.pending[k] == Completion(completed, s.now)
      case Await =>
        && SameRow(s, s', k) && KeptNote(s, s', k)
        && k in s'.buf.entries && s'.buf.entries[k] == s.buf.entries[k].(absenceAwaited := true)
        && k in s'.buf.pending && s'.buf.pending[k] == Completion(map[], s.now)
      case Refuse => false
    else
      && SameRow(s, s', k) && KeptNote(s, s', k)
      && Find(s'.buf, k) == Find(s.buf, k)
      && (k in s'.buf.pending <==> k in s.buf.pending)
      && (k in s.buf.pending ==> s'.buf.pending[k] == s.buf.pending[k])
  }

  ghost predicate SameRow(s: State, s': State, k: Key)
  {
    (k in s'.shadow <==> k in s.shadow) && (k in s.shadow ==> s'.shadow[k] == s.shadow[k])
  }

  ghost predicate KeptNote(s: State, s': State, k: Key)
  {
    (k in s'.notes <==> k in s.notes) && (k in s.notes ==> s'.notes[k] == s.notes[k])
  }

  ghost predicate Gone(s': State, k: Key)
  {
    k !in s'.buf.entries && k !in s'.buf.pending && k !in s'.notes
  }

  /** A batch a constraint refused goes back. The fallback has by then filled the markers of its
      unmoved images in place, so they go back filled. */
  ghost predicate Defers(h: History, s: State, s': State)
    requires |h.xids| == |h.log|
  {
    Requeues(h, s, s') && exists w :: Writes(h, s, w) && !Consistent(h.conflicts, w.shadow)
  }

  ghost predicate Requeues(h: History, s: State, s': State)
  {
    && s.batch.Some?
    && s' == s.(buf := s'.buf, notes := s'.notes, batch := None)
    && s'.buf.pending == s.buf.pending
    && s'.buf.entries.Keys == s.buf.entries.Keys
    && s'.notes.Keys == s.notes.Keys
    && (forall k :: k in s.buf.entries ==>
          s'.buf.entries[k] ==
            if k in s.batch.value.keys then Refilled(h.writable, s.shadow, k, s.buf.entries[k])
            else s.buf.entries[k])
    && (forall k :: k in s.notes ==>
          s'.notes[k] ==
            if k in s.batch.value.keys && k in s.buf.entries
            then s.notes[k].(filled := s.notes[k].filled +
                               FilledNames(h.writable, s.shadow, k, s.buf.entries[k]))
            else s.notes[k])
  }

  ghost predicate Confirms(s: State, s': State)
  {
    && s.batch.None?
    && exists bound: nat :: IsConfirmBound(s, bound) &&
         s' == (if bound <= s.confirmed then s
                else s.(confirmed := bound, resume := if bound > s.resume then bound else s.resume))
  }

  /** The lowest of the delivered position and every buffered entry's first position. */
  ghost predicate IsConfirmBound(s: State, bound: nat)
  {
    && bound <= s.position
    && (forall k :: k in s.buf.entries ==> bound <= s.buf.entries[k].firstLSN)
    && (bound == s.position || exists k :: k in s.buf.entries && s.buf.entries[k].firstLSN == bound)
  }

  ghost predicate Claims(s: State, s': State)
  {
    && s' == s.(phase := s'.phase)
    && forall k :: s'.phase(k) == s.phase(k) ||
                   (s.phase(k).Uncut? && s'.phase(k) == Claimed(s.seen(k)))
  }

  /** One committed pass of a chunk over some of the keys it still owes: each row as the pass read
      it, inserted only where the shadow holds none. */
  ghost predicate Copies(h: History, s: State, s': State)
  {
    && s.now <= |h.log|
    && s' == s.(phase := s'.phase, shadow := s'.shadow)
    && Consistent(h.conflicts, s'.shadow)
    && forall k :: (s'.phase(k) == s.phase(k) && SameRow(s, s', k)) || CopiedKey(h, s, s', k)
  }

  ghost predicate CopiedKey(h: History, s: State, s': State, k: Key)
    requires s.now <= |h.log|
  {
    && s.phase(k).Claimed? && s'.phase(k).Copied?
    && if k in s.shadow then SameRow(s, s', k)
       else exists v: nat ::
              && s.phase(k).since <= v <= s.seen(k) && v <= s.now
              && RowAt(s'.shadow, k) == Shown(At(h, v, k), h.writable)
  }

  ghost predicate Lands(s: State, s': State)
  {
    && s' == s.(phase := s'.phase)
    && forall k :: s'.phase(k) == s.phase(k) || (s.phase(k).Copied? && s'.phase(k).Landed?)
  }

  /** A run stops and another resumes: from a position at or below the highest confirmed one, and from a
      set of keys that had all landed, those a saved watermark reaches, with the shadow cleared of every
      other. */
  ghost predicate Restarts(s: State, s': State)
  {
    && s'.delivered == s'.position == s'.resume <= s.resume
    && s'.now == s.now && s'.seen == s.seen
    && s'.confirmed == 0
    && s'.buf == EMPTY && s'.notes == map[] && s'.batch.None?
    && exists kept: Key -> bool :: ResumesWith(s, s', kept)
  }

  ghost predicate ResumesWith(s: State, s': State, kept: Key -> bool)
  {
    forall k ::
      if kept(k) then s.phase(k).Landed? && s'.phase(k).Landed? && SameRow(s, s', k)
      else s'.phase(k).Uncut? && k !in s'.shadow
  }

  ghost predicate Next(h: History, s: State, s': State)
    requires |h.xids| == |h.log|
  {
    || Commits(h, s, s') || Shows(s, s') || Delivers(h, s, s') || Progresses(s, s')
    || Releases(s, s') || Drains(h, s, s') || Flushes(h, s, s') || Defers(h, s, s')
    || Confirms(s, s') || Claims(s, s') || Copies(h, s, s') || Lands(s, s') || Restarts(s, s')
  }
}
