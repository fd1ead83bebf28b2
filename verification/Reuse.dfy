/** What a moved image's reused mark says, over every run (pkg/applier/buffer.go). */
module Reuse {
  import opened Options
  import opened Rows
  import opened Entries
  import opened Protocol
  import opened Delivery
  import opened Convergence

  // ------------------------------------------------------- which row stands where

  /** A row of the source, by the change that made it (zero for a row it began with) and where. */
  datatype Identity = Identity(born: nat, at: Key)

  type Standing = (nat, Key) -> Option<Identity>

  /** Change `i` leads from which row stands where after `i` changes to the same after `i + 1`. */
  ghost predicate Carries(log: seq<Change>, who: Standing, i: nat)
    requires i < |log|
  {
    && (forall k :: !Touches(log[i], k) ==> who(i + 1, k) == who(i, k))
    && match log[i]
       case Insert(q, _) => who(i, q).None? && who(i + 1, q) == Some(Identity(i + 1, q))
       case Update(q, _) => who(i, q).Some? && who(i + 1, q) == who(i, q)
       case Move(o, q, _) =>
         o != q && who(i, o).Some? && who(i, q).None? && who(i + 1, o).None? && who(i + 1, q) == who(i, o)
       case Delete(q) => who(i, q).Some? && who(i + 1, q).None?
  }

  ghost predicate Identifies(log: seq<Change>, who: Standing)
  {
    && (forall k :: who(0, k).Some? ==> who(0, k) == Some(Identity(0, k)))
    && (forall i :: 0 <= i < |log| ==> Carries(log, who, i))
  }

  function WhoAt(h: History, n: nat, k: Key): (r: Option<Identity>)
    requires n <= |h.log|
  {
    if n == 0 then (if At(h, 0, k).Some? then Some(Identity(0, k)) else None)
    else match h.log[n - 1]
      case Insert(q, _) => if q == k then Some(Identity(n, k)) else WhoAt(h, n - 1, k)
      case Update(_, _) => WhoAt(h, n - 1, k)
      case Move(o, q, _) =>
        if q == k then WhoAt(h, n - 1, o) else if o == k then None else WhoAt(h, n - 1, k)
      case Delete(q) => if q == k then None else WhoAt(h, n - 1, k)
  }

  lemma {:induction false} WhoIsThere(h: History, n: nat, k: Key)
    requires LegalHistory(h) && n <= |h.log|
    ensures WhoAt(h, n, k).Some? <==> At(h, n, k).Some?
  {
    if n > 0 {
      WhoIsThere(h, n - 1, k);
      AtStep(h, n - 1, k);
      if h.log[n - 1].Move? {
        WhoIsThere(h, n - 1, h.log[n - 1].oldKey);
      }
    }
  }

  function Who(h: History): (who: Standing)
  {
    (n: nat, k: Key) => if n <= |h.log| then WhoAt(h, n, k) else None
  }

  /** Every history says which row stands where. */
  lemma RowsAreIdentified(h: History)
    requires LegalHistory(h)
    ensures Identifies(h.log, Who(h))
  {
    forall i | 0 <= i < |h.log| ensures Carries(h.log, Who(h), i) {
      AtStep(h, i, h.log[i].key);
      WhoIsThere(h, i, h.log[i].key);
      if h.log[i].Move? {
        WhoIsThere(h, i, h.log[i].oldKey);
      }
    }
  }

  lemma {:induction false} BornBefore(log: seq<Change>, who: Standing, n: nat, k: Key)
    requires Identifies(log, who) && n <= |log|
    ensures who(n, k).Some? ==> who(n, k).value.born <= n
  {
    if n > 0 {
      assert Carries(log, who, n - 1);
      BornBefore(log, who, n - 1, k);
      if log[n - 1].Move? {
        BornBefore(log, who, n - 1, log[n - 1].oldKey);
      }
    }
  }

  /** A row stands at one key at a time. */
  lemma {:induction false} OnePlace(log: seq<Change>, who: Standing, n: nat, a: Key, b: Key)
    requires Identifies(log, who) && n <= |log| && who(n, a).Some? && who(n, a) == who(n, b)
    ensures a == b
  {
    if n > 0 && a != b {
      assert Carries(log, who, n - 1);
      match log[n - 1]
      case Insert(q, _) =>
        BornBefore(log, who, n - 1, a);
        BornBefore(log, who, n - 1, b);
        OnePlace(log, who, n - 1, a, b);
      case Update(q, _) => OnePlace(log, who, n - 1, a, b);
      case Move(o, q, _) => OnePlace(log, who, n - 1, if a == q then o else a, if b == q then o else b);
      case Delete(q) => OnePlace(log, who, n - 1, a, b);
    }
  }

  // ------------------------------------------------------- what the mark says

  /** When the row of each buffered image left the image's origin, after one step. A delivered key move
      starts from the old key's image: one that had itself moved keeps the moment it left its origin. */
  ghost function LeftNext(h: History, left: map<Key, nat>, s: State, s': State): (r: map<Key, nat>)
    requires |h.xids| == |h.log|
  {
    if Delivers(h, s, s') && h.log[s.delivered].Move?
    then LeftMove(left, s.buf, s.delivered, h.log[s.delivered]) else left
  }

  function LeftMove(left: map<Key, nat>, b: Buf, n: nat, ch: Change): (r: map<Key, nat>)
    requires ch.Move?
  {
    left[ch.key := if HasMoved(b, ch.oldKey) && ch.oldKey in left then left[ch.oldKey] else n]
  }

  /** When the row of each image buffered in state `i` of the run left the image's origin. */
  ghost function Left(h: History, run: seq<State>, i: nat): (left: map<Key, nat>)
    requires |h.xids| == |h.log| && i < |run|
  {
    if i == 0 then map[] else LeftNext(h, Left(h, run, i - 1), run[i - 1], run[i])
  }

  predicate HasMoved(b: Buf, k: Key)
  {
    k in b.entries && b.entries[k].Image? && b.entries[k].oldKey.Some?
  }

  /** After change `a`, and by change `n`, the key has held a row that is not this one. */
  ghost predicate Another(who: Standing, a: nat, n: nat, o: Key, row: Option<Identity>)
  {
    exists j: nat :: a < j <= n && who(j, o).Some? && who(j, o) != row
  }

  /** What a moved image at `k` says, when its row left the origin with change `a`: the row now at `k`
      moved away from the origin then, and the mark says whether the origin has held another since. */
  ghost predicate Marks(log: seq<Change>, who: Standing, n: nat, k: Key, e: Entry, a: nat)
    requires e.Image? && e.oldKey.Some?
  {
    && a < n && a < |log| && log[a].Move? && log[a].oldKey == e.oldKey.value
    && who(n, k).Some? && who(a, e.oldKey.value) == who(n, k)
    && (e.oldKeyReused <==> Another(who, a, n, e.oldKey.value, who(n, k)))
  }

  ghost predicate MarksAt(log: seq<Change>, who: Standing, n: nat, b: Buf, left: map<Key, nat>, k: Key)
  {
    HasMoved(b, k) ==> k in left && Marks(log, who, n, k, b.entries[k], left[k])
  }

  ghost predicate Marked(log: seq<Change>, who: Standing, n: nat, b: Buf, left: map<Key, nat>)
  {
    forall k :: MarksAt(log, who, n, b, left, k)
  }

  /** A key that change `n` puts no row at holds another row afterwards only if it did before. */
  lemma AnotherStep(log: seq<Change>, who: Standing, a: nat, n: nat, o: Key, row: Option<Identity>)
    requires Identifies(log, who) && a < n < |log|
    ensures Another(who, a, n + 1, o, row) <==>
              Another(who, a, n, o, row) || (who(n + 1, o).Some? && who(n + 1, o) != row)
    ensures !(Arrives(log[n]) && log[n].key == o) && who(n, o) != row ==>
              (Another(who, a, n + 1, o, row) <==> Another(who, a, n, o, row))
  {
    assert Carries(log, who, n);
  }

  /** An entry of a key the change does not touch. */
  lemma SparedMarks(log: seq<Change>, who: Standing, n: nat, k: Key, e: Entry, e': Entry, a: nat)
    requires Identifies(log, who) && n < |log| && !Touches(log[n], k)
    requires e.Image? && e.oldKey.Some? && Marks(log, who, n, k, e, a)
    requires e' == e || (LeftKey(e, log[n].key) && e' == e.(oldKeyReused := true))
    requires e' != e ==> Arrives(log[n]) || log[n].Update?
    requires Arrives(log[n]) && LeftKey(e, log[n].key) ==> e'.oldKeyReused
    ensures Marks(log, who, n + 1, k, e', a)
  {
    var o, row := e.oldKey.value, who(n, k);
    assert Carries(log, who, n);
    AnotherStep(log, who, a, n, o, row);
    if who(n, o) == row { OnePlace(log, who, n, o, k); }
    if who(n + 1, o) == row { OnePlace(log, who, n + 1, o, k); }
  }

  /** The image an UPDATE of its key leaves. */
  lemma UpdatedMarks(log: seq<Change>, who: Standing, n: nat, k: Key, e: Entry, e': Entry, a: nat)
    requires Identifies(log, who) && n < |log| && log[n].Update? && log[n].key == k
    requires e.Image? && e.oldKey.Some? && Marks(log, who, n, k, e, a)
    requires e'.Image? && e'.oldKey == e.oldKey && e'.oldKeyReused == e.oldKeyReused
    ensures Marks(log, who, n + 1, k, e', a)
  {
    assert Carries(log, who, n);
    AnotherStep(log, who, a, n, e.oldKey.value, who(n, k));
  }

  /** The image a key move enters, starting from an image that had itself moved. */
  lemma MovedOnMarks(log: seq<Change>, who: Standing, n: nat, e: Entry, e': Entry, a: nat)
    requires Identifies(log, who) && n < |log| && log[n].Move?
    requires e.Image? && e.oldKey.Some? && Marks(log, who, n, log[n].oldKey, e, a)
    requires e'.Image? && e'.oldKey == e.oldKey && e'.oldKeyReused == e.oldKeyReused
    ensures Marks(log, who, n + 1, log[n].key, e', a)
  {
    var origin, row := e.oldKey.value, who(n, log[n].oldKey);
    assert Carries(log, who, n);
    AnotherStep(log, who, a, n, origin, row);
    if who(n, origin) == row { OnePlace(log, who, n, origin, log[n].oldKey); }
  }

  /** The image a key move enters otherwise: its row leaves the old key with this change. */
  lemma MovedMarks(log: seq<Change>, who: Standing, n: nat, e': Entry)
    requires Identifies(log, who) && n < |log| && log[n].Move?
    requires e'.Image? && e'.oldKey == Some(log[n].oldKey) && !e'.oldKeyReused
    ensures Marks(log, who, n + 1, log[n].key, e', n)
  {
    assert Carries(log, who, n);
  }

  /** Only a change that puts a row at a key, or an UPDATE of it, marks the images that left the key. */
  lemma AddMarks(b: Buf, ch: Change, delivered: nat, xid: nat, k: Key)
    requires ch.Move? ==> ch.oldKey != ch.key
    requires Add(b, Decode(ch, delivered, xid)).Some? && !Touches(ch, k) && ch.Delete?
    ensures Find(Add(b, Decode(ch, delivered, xid)).value, k) == Find(b, k)
  {
  }

  lemma TouchedMarks(log: seq<Change>, who: Standing, n: nat, b: Buf, left: map<Key, nat>, delivered: nat, xid: nat)
    requires Identifies(log, who) && n < |log| && Marked(log, who, n, b, left)
    requires Add(b, Decode(log[n], delivered, xid)).Some? && (log[n].Move? ==> log[n].oldKey != log[n].key)
    ensures var b', ch := Add(b, Decode(log[n], delivered, xid)).value, log[n];
            && MarksAt(log, who, n + 1, b', if ch.Move? then LeftMove(left, b, n, ch) else left, ch.key)
            && (ch.Move? ==> !HasMoved(b', ch.oldKey))
  {
    var b', q := Add(b, Decode(log[n], delivered, xid)).value, log[n].key;
    match log[n]
    case Insert(_, _) =>
    case Update(_, _) =>
      if HasMoved(b', q) {
        assert MarksAt(log, who, n, b, left, q);
        UpdatedMarks(log, who, n, q, b.entries[q], b'.entries[q], left[q]);
      }
    case Move(o, _, _) =>
      assert MarksAt(log, who, n, b, left, o);
      if HasMoved(b, o) {
        MovedOnMarks(log, who, n, b.entries[o], b'.entries[q], left[o]);
      } else {
        MovedMarks(log, who, n, b'.entries[q]);
      }
    case Delete(_) =>
  }

  lemma UntouchedMarks(log: seq<Change>, who: Standing, n: nat, b: Buf, left: map<Key, nat>, delivered: nat, xid: nat,
                       k: Key)
    requires Identifies(log, who) && n < |log| && MarksAt(log, who, n, b, left, k)
    requires Add(b, Decode(log[n], delivered, xid)).Some? && (log[n].Move? ==> log[n].oldKey != log[n].key)
    requires !Touches(log[n], k)
    ensures MarksAt(log, who, n + 1, Add(b, Decode(log[n], delivered, xid)).value, left, k)
  {
    var b' := Add(b, Decode(log[n], delivered, xid)).value;
    AddSpares(b, log[n], delivered, xid, k);
    if log[n].Delete? {
      AddMarks(b, log[n], delivered, xid, k);
    }
    if HasMoved(b', k) {
      SparedMarks(log, who, n, k, b.entries[k], b'.entries[k], left[k]);
    }
  }

  lemma DeliverMarks(h: History, who: Standing, left: map<Key, nat>, s: State, s': State)
    requires |h.xids| == |h.log| && Identifies(h.log, who) && Delivers(h, s, s')
    requires Marked(h.log, who, s.delivered, s.buf, left)
    ensures Marked(h.log, who, s'.delivered, s'.buf, LeftNext(h, left, s, s'))
  {
    var n, xid := s.delivered, h.xids[s.delivered];
    assert Carries(h.log, who, n);
    TouchedMarks(h.log, who, n, s.buf, left, s.position, xid);
    var left' := LeftNext(h, left, s, s');
    forall k ensures MarksAt(h.log, who, s'.delivered, s'.buf, left', k) {
      if !Touches(h.log[n], k) {
        assert MarksAt(h.log, who, n, s.buf, left, k);
        UntouchedMarks(h.log, who, n, s.buf, left, s.position, xid, k);
      }
    }
  }

  /** Every other step keeps, of a moved image it keeps at all, where the image came from and its mark. */
  ghost predicate KeepsMark(s: State, s': State, k: Key)
  {
    HasMoved(s'.buf, k) ==>
      && HasMoved(s.buf, k) && s'.delivered == s.delivered
      && s'.buf.entries[k].oldKey == s.buf.entries[k].oldKey
      && s'.buf.entries[k].oldKeyReused == s.buf.entries[k].oldKeyReused
  }

  lemma FlushKeepsMark(h: History, s: State, s': State, k: Key)
    requires |h.xids| == |h.log| && Flushes(h, s, s')
    ensures KeepsMark(s, s', k)
  {
    var read: Key -> nat :| FlushReads(h, s, s', read);
    assert FlushKey(h, s, s', k, At(h, read(k), k));
  }

  lemma DrainKeepsMark(h: History, s: State, s': State, k: Key)
    requires |h.xids| == |h.log| && Drains(h, s, s')
    ensures KeepsMark(s, s', k)
  {
    var visible: nat -> bool :| DrainChoice(s, s', visible);
  }

  lemma DeferKeepsMark(h: History, s: State, s': State, k: Key)
    requires Requeues(h, s, s')
    ensures KeepsMark(s, s', k)
  {
  }

  /** The steps of the source, the readers, the copy and the confirmation leave the buffer alone, and a
      restart empties it. */
  ghost predicate LeavesBuffer(h: History, s: State, s': State)
  {
    || Commits(h, s, s') || Shows(s, s') || Progresses(s, s') || Confirms(s, s')
    || Claims(s, s') || Copies(h, s, s') || Lands(s, s') || Restarts(s, s')
  }

  lemma BufferIsLeft(h: History, s: State, s': State)
    requires LeavesBuffer(h, s, s')
    ensures (s'.buf == s.buf && s'.delivered == s.delivered) || s'.buf == EMPTY
  {
  }

  lemma OtherKeepsMark(h: History, s: State, s': State, k: Key)
    requires |h.xids| == |h.log| && Next(h, s, s') && !Delivers(h, s, s')
    ensures KeepsMark(s, s', k)
  {
    if Flushes(h, s, s') { FlushKeepsMark(h, s, s', k); }
    else if Drains(h, s, s') { DrainKeepsMark(h, s, s', k); }
    else if Defers(h, s, s') { DeferKeepsMark(h, s, s', k); }
    else if LeavesBuffer(h, s, s') { BufferIsLeft(h, s, s'); }
  }

  lemma OtherMarks(h: History, who: Standing, left: map<Key, nat>, s: State, s': State)
    requires |h.xids| == |h.log| && Next(h, s, s') && !Delivers(h, s, s')
    requires Marked(h.log, who, s.delivered, s.buf, left)
    ensures Marked(h.log, who, s'.delivered, s'.buf, left)
  {
    forall k ensures MarksAt(h.log, who, s'.delivered, s'.buf, left, k) {
      OtherKeepsMark(h, s, s', k);
      assert MarksAt(h.log, who, s.delivered, s.buf, left, k);
    }
  }

  lemma {:induction false} MarksHold(h: History, run: seq<State>, i: nat)
    requires LegalHistory(h) && Linked(h, run) && i < |run| && Identifies(h.log, Who(h))
    ensures Marked(h.log, Who(h), run[i].delivered, run[i].buf, Left(h, run, i))
  {
    if i > 0 {
      var s, s', left := run[i - 1], run[i], Left(h, run, i - 1);
      MarksHold(h, run, i - 1);
      assert StepAt(h, run, i - 1);
      if Delivers(h, s, s') {
        DeliverMarks(h, Who(h), left, s, s');
      } else {
        OtherMarks(h, Who(h), left, s, s');
      }
    }
  }

  /** In every state of every run of the protocol, whatever has been delivered, drained, flushed, held,
      released, deferred or resumed: the row of a buffered moved image moved away from the image's origin
      with a change already delivered, it stands at the image's key now, and the image is marked reused if
      and only if another row has stood at the origin since it left. */
  lemma ReuseIsExact(h: History, run: seq<State>, i: nat, k: Key)
    requires LegalHistory(h) && Linked(h, run) && i < |run| && HasMoved(run[i].buf, k)
    ensures var s, o := run[i], run[i].buf.entries[k].oldKey.value;
            && k in Left(h, run, i)
            && var a := Left(h, run, i)[k];
            && a < s.delivered && a < |h.log| && h.log[a].Move? && h.log[a].oldKey == o
            && Who(h)(s.delivered, k).Some? && Who(h)(a, o) == Who(h)(s.delivered, k)
            && (s.buf.entries[k].oldKeyReused <==> Another(Who(h), a, s.delivered, o, Who(h)(s.delivered, k)))
  {
    RowsAreIdentified(h);
    MarksHold(h, run, i);
    assert MarksAt(h.log, Who(h), run[i].delivered, run[i].buf, Left(h, run, i), k);
  }
}
