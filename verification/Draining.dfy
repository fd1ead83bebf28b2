/** Which buffered entries one drain lets go (pkg/applier/drain.go). */
module Draining {
  import opened Rows
  import opened Entries
  import opened Copying
  import opened Protocol

  type Judged = map<Key, KeyState>

  /** `image` is an image that moved from `o`, whose entry is buffered too. */
  predicate Pair(entries: map<Key, Entry>, image: Key, o: Key)
  {
    image in entries && o in entries && LeftKey(entries[image], o)
  }

  predicate WaitsTogether(image: KeyState, o: KeyState, imageInvisible: bool)
  {
    image != KeyUncut && o != KeyUncut && (o == KeyInFlight || imageInvisible)
  }

  /** No pair that must wait together is left apart. */
  ghost predicate Closed(entries: map<Key, Entry>, invisible: set<Key>, state: Judged)
    requires state.Keys == entries.Keys
  {
    forall image, o :: Pair(entries, image, o) && WaitsTogether(state[image], state[o], image in invisible) ==>
      state[image] == KeyInFlight && state[o] == KeyInFlight
  }

  /** `later` holds back what `state` does, and perhaps more. */
  ghost predicate HoldsMore(state: Judged, later: Judged)
  {
    && state.Keys == later.Keys
    && forall k :: k in state ==> later[k] == state[k] || later[k] == KeyInFlight
  }

  /** `state` is the least way to hold entries back that keeps every travelling pair together. */
  ghost predicate IsLeast(entries: map<Key, Entry>, invisible: set<Key>, start: Judged, state: Judged)
    requires start.Keys == entries.Keys
  {
    && HoldsMore(start, state)
    && Closed(entries, invisible, state)
    && Below(entries, invisible, start, state)
  }

  /** No other way to keep the pairs together lets go of an entry that `state` holds back. */
  ghost predicate Below(entries: map<Key, Entry>, invisible: set<Key>, start: Judged, state: Judged)
    requires start.Keys == entries.Keys == state.Keys
  {
    forall t: Judged, k :: HoldsMore(start, t) && Closed(entries, invisible, t) ==>
      k in state && state[k] == KeyInFlight ==> t[k] == KeyInFlight
  }

  /** Holding back one more pair that must wait together stays below every closed way of doing it. */
  lemma PairStaysBelow(entries: map<Key, Entry>, invisible: set<Key>, start: Judged, state: Judged, image: Key, o: Key)
    requires start.Keys == entries.Keys && HoldsMore(start, state) && Below(entries, invisible, start, state)
    requires Pair(entries, image, o) && WaitsTogether(state[image], state[o], image in invisible)
    ensures HoldsMore(start, state[image := KeyInFlight][o := KeyInFlight])
    ensures Below(entries, invisible, start, state[image := KeyInFlight][o := KeyInFlight])
  {
  }

  /** The keys not held back. */
  function Free(state: Judged): (r: set<Key>)
  {
    set k | k in state && state[k] != KeyInFlight
  }

  /** `pairs` lists every pair, in some order. */
  ghost predicate AllPairs(entries: map<Key, Entry>, pairs: seq<(Key, Key)>)
  {
    && (forall i :: 0 <= i < |pairs| ==> Pair(entries, pairs[i].0, pairs[i].1))
    && (forall image, o :: Pair(entries, image, o) ==> (image, o) in pairs)
  }

  lemma AnyKey(keys: set<Key>)
    requires keys != {}
    ensures exists k :: k in keys
  {
    assert (forall k :: k !in keys) ==> keys == {};
  }

  method Pairs(entries: map<Key, Entry>) returns (pairs: seq<(Key, Key)>)
    ensures AllPairs(entries, pairs)
  {
    pairs := [];
    var todo: set<Key> := entries.Keys;
    while todo != {}
      invariant todo <= entries.Keys
      invariant forall i :: 0 <= i < |pairs| ==> Pair(entries, pairs[i].0, pairs[i].1)
      invariant forall image, o :: Pair(entries, image, o) && image !in todo ==> (image, o) in pairs
    {
      AnyKey(todo);
      var k: Key :| k in todo;
      var e := entries[k];
      if e.Image? && e.oldKey.Some? && e.oldKey.value in entries {
        pairs := pairs + [(k, e.oldKey.value)];
      }
      todo := todo - {k};
    }
  }

  /** Hold back both halves of every pair that must wait together, pass after pass, until a pass
      changes nothing: the least fixed point, whatever order the pairs come in. */
  method DeferPairs(entries: map<Key, Entry>, invisible: set<Key>, start: Judged) returns (state: Judged)
    requires start.Keys == entries.Keys
    ensures IsLeast(entries, invisible, start, state)
  {
    state := start;
    var pairs := Pairs(entries);
    var changed := true;
    while changed
      invariant HoldsMore(start, state) && Below(entries, invisible, start, state)
      invariant !changed ==> Closed(entries, invisible, state)
      decreases Free(state), changed
    {
      state, changed := DeferOnce(entries, invisible, start, state, pairs);
    }
  }

  method DeferOnce(entries: map<Key, Entry>, invisible: set<Key>, ghost start: Judged, state: Judged,
                   pairs: seq<(Key, Key)>)
    returns (next: Judged, changed: bool)
    requires start.Keys == entries.Keys && AllPairs(entries, pairs)
    requires HoldsMore(start, state) && Below(entries, invisible, start, state)
    ensures HoldsMore(start, next) && Below(entries, invisible, start, next)
    ensures if changed then Free(next) < Free(state) else next == state && Closed(entries, invisible, state)
  {
    next, changed := state, false;
    for i := 0 to |pairs|
      invariant HoldsMore(start, next) && Below(entries, invisible, start, next)
      invariant if changed then Free(next) < Free(state) else next == state
      invariant !changed ==> forall j :: 0 <= j < i ==> Settled(state, pairs[j], invisible)
    {
      var (image, o) := pairs[i];
      assert Pair(entries, image, o);
      if WaitsTogether(next[image], next[o], image in invisible) {
        if next[image] != KeyInFlight || next[o] != KeyInFlight {
          PairStaysBelow(entries, invisible, start, next, image, o);
          ghost var before := next;
          next, changed := next[image := KeyInFlight][o := KeyInFlight], true;
          assert (image in Free(before) || o in Free(before)) && image !in Free(next) && o !in Free(next);
          assert Free(next) < Free(before);
        }
      }
    }
    if !changed {
      forall image, o | Pair(entries, image, o) && WaitsTogether(state[image], state[o], image in invisible)
        ensures state[image] == KeyInFlight && state[o] == KeyInFlight
      {
        var j :| 0 <= j < |pairs| && pairs[j] == (image, o);
        assert Settled(state, pairs[j], invisible);
      }
    }
  }

  predicate Settled(state: Judged, pair: (Key, Key), invisible: set<Key>)
  {
    pair.0 in state && pair.1 in state &&
    (WaitsTogether(state[pair.0], state[pair.1], pair.0 in invisible) ==>
      state[pair.0] == KeyInFlight && state[pair.1] == KeyInFlight)
  }

  // ------------------------------------------------------- what the fixed point means

  /** There is only one least way. */
  lemma LeastIsUnique(entries: map<Key, Entry>, invisible: set<Key>, start: Judged, a: Judged, b: Judged)
    requires start.Keys == entries.Keys && IsLeast(entries, invisible, start, a)
    requires IsLeast(entries, invisible, start, b)
    ensures a == b
  {
    forall k | k in a ensures a[k] == b[k] {
      if a[k] == KeyInFlight { assert b[k] == KeyInFlight; }
      if b[k] == KeyInFlight { assert a[k] == KeyInFlight; }
    }
  }

  /** An uncut key is never held back: it is discarded whatever travels with it. */
  lemma UncutStays(entries: map<Key, Entry>, invisible: set<Key>, start: Judged, state: Judged, k: Key)
    requires start.Keys == entries.Keys && IsLeast(entries, invisible, start, state)
    requires k in start && start[k] == KeyUncut
    ensures state[k] == KeyUncut
  {
    var t := state[k := KeyUncut];
    assert HoldsMore(start, t);
    forall image, o | Pair(entries, image, o) && WaitsTogether(t[image], t[o], image in invisible)
      ensures t[image] == KeyInFlight && t[o] == KeyInFlight
    {
      assert WaitsTogether(state[image], state[o], image in invisible);
    }
    assert Closed(entries, invisible, t);
  }

  /** A landed entry the snapshot shows is held back if and only if an image that left its key is not
      shown, or it is itself an image whose old key's entry is held back. An image that waits for nothing but
      its own chunk therefore never holds back the entry at the key it left. */
  lemma LandedIsHeldExactly(entries: map<Key, Entry>, invisible: set<Key>, start: Judged, state: Judged, o: Key)
    requires start.Keys == entries.Keys && IsLeast(entries, invisible, start, state)
    requires forall k :: k in invisible && k in start ==> start[k] == KeyInFlight
    requires o in start && start[o] == KeyLanded
    ensures state[o] == KeyInFlight <==>
            || (exists image :: Pair(entries, image, o) && image in invisible)
            || (exists origin :: origin != o && Pair(entries, o, origin) && state[origin] == KeyInFlight)
  {
    if (exists image :: Pair(entries, image, o) && image in invisible) {
      var image :| Pair(entries, image, o) && image in invisible;
      assert WaitsTogether(state[image], state[o], true);
    } else if (exists origin :: origin != o && Pair(entries, o, origin) && state[origin] == KeyInFlight) {
      var origin :| origin != o && Pair(entries, o, origin) && state[origin] == KeyInFlight;
      assert WaitsTogether(state[o], state[origin], o in invisible);
    } else {
      NothingHoldsIt(entries, invisible, start, state, o);
    }
  }

  lemma NothingHoldsIt(entries: map<Key, Entry>, invisible: set<Key>, start: Judged, state: Judged, o: Key)
    requires start.Keys == entries.Keys && IsLeast(entries, invisible, start, state)
    requires o in start && start[o] == KeyLanded && o !in invisible
    requires forall image :: Pair(entries, image, o) ==> image !in invisible
    requires forall origin :: origin != o && Pair(entries, o, origin) ==> state[origin] != KeyInFlight
    ensures state[o] == KeyLanded
  {
    var t := state[o := KeyLanded];
    assert HoldsMore(start, t);
    forall image, old' | Pair(entries, image, old') && WaitsTogether(t[image], t[old'], image in invisible)
      ensures t[image] == KeyInFlight && t[old'] == KeyInFlight
    {
      if image != o && old' != o {
        assert WaitsTogether(state[image], state[old'], image in invisible);
      }
    }
    assert Closed(entries, invisible, t);
  }

  // ------------------------------------------------------- the drain as a whole

  /** Every entry as its key stands and its transaction is seen, before pairs are looked at. */
  function Judge(entries: map<Key, Entry>, classify: Key -> KeyState, visible: nat -> bool): (r: Judged)
  {
    map k | k in entries :: if visible(entries[k].xid) then classify(k) else KeyInFlight
  }

  function Unseen(entries: map<Key, Entry>, visible: nat -> bool): (r: set<Key>)
  {
    set k | k in entries && !visible(entries[k].xid)
  }

  datatype Drained = Drained(flushed: set<Key>, discarded: set<Key>, deferred: set<Key>, held: set<Key>,
                             unseen: set<Key>)

  /** The five ways an entry leaves a drain: a pending completion keeps it first, an unseen transaction
      next, and then its judgement. */
  function Split(b: Buf, state: Judged, unseen: set<Key>): (r: Drained)
    requires state.Keys == b.entries.Keys
  {
    var rest := b.entries.Keys - b.pending.Keys - unseen;
    Drained((set k | k in rest && state[k] == KeyLanded),
            (set k | k in rest && state[k] == KeyUncut),
            (set k | k in rest && state[k] == KeyInFlight),
            b.entries.Keys * b.pending.Keys,
            unseen - b.pending.Keys)
  }

  datatype Way = Flush | Discard | Defer | HoldBack | Wait

  /** The way one entry goes. */
  function WayOf(b: Buf, state: Judged, unseen: set<Key>, k: Key): (r: Way)
    requires k in state
  {
    if k in b.pending then HoldBack
    else if k in unseen then Wait
    else match state[k] case KeyUncut => Discard case KeyLanded => Flush case KeyInFlight => Defer
  }

  /** The entries that go each way, each counted once. */
  datatype Tally = Tally(flushed: nat, discarded: nat, deferred: nat, held: nat, unseen: nat)

  function Count(t: Tally, w: Way): (r: Tally)
  {
    match w
    case Flush => t.(flushed := t.flushed + 1)
    case Discard => t.(discarded := t.discarded + 1)
    case Defer => t.(deferred := t.deferred + 1)
    case HoldBack => t.(held := t.held + 1)
    case Wait => t.(unseen := t.unseen + 1)
  }

  /** The tally of the entries decided while those in `todo` are not. */
  function TallyOf(d: Drained, todo: set<Key>): (r: Tally)
  {
    Tally(|d.flushed - todo|, |d.discarded - todo|, |d.deferred - todo|, |d.held - todo|, |d.unseen - todo|)
  }

  lemma CountOne(s: set<Key>, todo: set<Key>, k: Key)
    requires k in todo
    ensures |s - (todo - {k})| == |s - todo| + if k in s then 1 else 0
  {
    if k in s {
      assert s - (todo - {k}) == s - todo + {k};
    } else {
      assert s - (todo - {k}) == s - todo;
    }
  }

  /** The part of a split an entry is in is the way it goes. */
  ghost predicate GoesTo(d: Drained, k: Key, w: Way)
  {
    && (k in d.flushed <==> w.Flush?)
    && (k in d.discarded <==> w.Discard?)
    && (k in d.deferred <==> w.Defer?)
    && (k in d.held <==> w.HoldBack?)
    && (k in d.unseen <==> w.Wait?)
  }

  lemma TallyOne(d: Drained, todo: set<Key>, k: Key, w: Way)
    requires GoesTo(d, k, w) && k in todo
    ensures TallyOf(d, todo - {k}) == Count(TallyOf(d, todo), w)
  {
    CountOne(d.flushed, todo, k);
    CountOne(d.discarded, todo, k);
    CountOne(d.deferred, todo, k);
    CountOne(d.held, todo, k);
    CountOne(d.unseen, todo, k);
  }

  /** The five parts are disjoint and lose no entry. */
  lemma SplitIsExact(b: Buf, state: Judged, unseen: set<Key>)
    requires state.Keys == b.entries.Keys && unseen <= b.entries.Keys
    ensures var d := Split(b, state, unseen);
            && d.flushed + d.discarded + d.deferred + d.held + d.unseen == b.entries.Keys
            && d.flushed !! d.discarded !! d.deferred !! d.held !! d.unseen
  {
    var d := Split(b, state, unseen);
    forall k | k in b.entries
      ensures k in d.flushed + d.discarded + d.deferred + d.held + d.unseen
    {
      match state[k]
      case KeyUncut =>
      case KeyInFlight =>
      case KeyLanded =>
    }
  }

  // ------------------------------------------------------- what a drain does with an entry, said of the entry

  /** The entry waits on its own account: its transaction is not seen, its key is in flight, or, landed, an image
      that left its key is not seen. */
  ghost predicate Blocked(entries: map<Key, Entry>, classify: Key -> KeyState, visible: nat -> bool, k: Key)
  {
    k in entries &&
    (|| !visible(entries[k].xid) || classify(k) == KeyInFlight
     || (classify(k) == KeyLanded && exists image :: Pair(entries, image, k) && !visible(entries[image].xid)))
  }

  /** The entry itself could go: seen, and its key landed. */
  predicate Travels(entries: map<Key, Entry>, classify: Key -> KeyState, visible: nat -> bool, k: Key)
  {
    k in entries && visible(entries[k].xid) && classify(k) == KeyLanded
  }

  /** Entries that could go, each an image that left the key of the next, up to one that waits. */
  ghost predicate LeadsToBlocked(entries: map<Key, Entry>, classify: Key -> KeyState, visible: nat -> bool,
                                 path: seq<Key>)
  {
    && |path| > 0 && Blocked(entries, classify, visible, path[|path| - 1])
    && forall i :: 0 <= i < |path| - 1 ==>
         Travels(entries, classify, visible, path[i]) && Pair(entries, path[i], path[i + 1])
  }

  /** The entry waits, on its own account or for the entry at the key its row left, and so on. */
  ghost predicate HeldBack(entries: map<Key, Entry>, classify: Key -> KeyState, visible: nat -> bool, k: Key)
  {
    exists path :: LeadsToBlocked(entries, classify, visible, path) && path[0] == k
  }

  lemma BlockedIsHeldBack(entries: map<Key, Entry>, classify: Key -> KeyState, visible: nat -> bool, k: Key)
    requires Blocked(entries, classify, visible, k)
    ensures HeldBack(entries, classify, visible, k)
  {
    assert LeadsToBlocked(entries, classify, visible, [k]);
  }

  lemma PairIsHeldBack(entries: map<Key, Entry>, classify: Key -> KeyState, visible: nat -> bool, image: Key, o: Key)
    requires Travels(entries, classify, visible, image) && Pair(entries, image, o)
    requires HeldBack(entries, classify, visible, o)
    ensures HeldBack(entries, classify, visible, image)
  {
    var path :| LeadsToBlocked(entries, classify, visible, path) && path[0] == o;
    var longer := [image] + path;
    forall i | 0 <= i < |longer| - 1
      ensures Travels(entries, classify, visible, longer[i]) && Pair(entries, longer[i], longer[i + 1])
    {
      if i > 0 {
        assert longer[i] == path[i - 1] && longer[i + 1] == path[i];
      }
    }
    assert LeadsToBlocked(entries, classify, visible, longer);
  }

  /** What waits is held back. */
  lemma {:induction false} PathIsHeld(entries: map<Key, Entry>, classify: Key -> KeyState, visible: nat -> bool,
                                      state: Judged, path: seq<Key>)
    requires IsLeast(entries, Unseen(entries, visible), Judge(entries, classify, visible), state)
    requires LeadsToBlocked(entries, classify, visible, path)
    ensures path[0] in state && state[path[0]] == KeyInFlight
    decreases |path|
  {
    var k, start := path[0], Judge(entries, classify, visible);
    if |path| > 1 {
      assert Travels(entries, classify, visible, path[0]) && Pair(entries, path[0], path[1]);
      var rest := path[1..];
      forall i | 0 <= i < |rest| - 1
        ensures Travels(entries, classify, visible, rest[i]) && Pair(entries, rest[i], rest[i + 1])
      {
        assert rest[i] == path[i + 1] && rest[i + 1] == path[i + 2];
      }
      PathIsHeld(entries, classify, visible, state, rest);
      assert WaitsTogether(state[k], state[path[1]], k in Unseen(entries, visible));
    } else if start[k] != KeyInFlight {
      var image :| Pair(entries, image, k) && !visible(entries[image].xid);
      assert start[image] == KeyInFlight;
      assert WaitsTogether(state[image], state[k], true);
    }
  }

  /** And nothing else is: the drain holds an entry back if and only if it waits, on its own account or for the entry
      at the key its row left. */
  lemma HeldBackExactly(entries: map<Key, Entry>, classify: Key -> KeyState, visible: nat -> bool, state: Judged,
                        k: Key)
    requires IsLeast(entries, Unseen(entries, visible), Judge(entries, classify, visible), state) && k in entries
    ensures state[k] == KeyInFlight <==> HeldBack(entries, classify, visible, k)
  {
    if HeldBack(entries, classify, visible, k) {
      var path :| LeadsToBlocked(entries, classify, visible, path) && path[0] == k;
      PathIsHeld(entries, classify, visible, state, path);
    } else {
      var start := Judge(entries, classify, visible);
      var t := map j | j in entries :: if HeldBack(entries, classify, visible, j) then KeyInFlight else start[j];
      WaitingIsClosed(entries, classify, visible, t);
      assert HoldsMore(start, t);
      assert t[k] != KeyInFlight by {
        if start[k] == KeyInFlight { BlockedIsHeldBack(entries, classify, visible, k); }
      }
    }
  }

  lemma WaitingIsClosed(entries: map<Key, Entry>, classify: Key -> KeyState, visible: nat -> bool, t: Judged)
    requires t.Keys == entries.Keys
    requires forall j :: j in entries ==>
               t[j] == if HeldBack(entries, classify, visible, j) then KeyInFlight
                       else Judge(entries, classify, visible)[j]
    ensures Closed(entries, Unseen(entries, visible), t)
  {
    var start, unseen := Judge(entries, classify, visible), Unseen(entries, visible);
    forall image, o | Pair(entries, image, o) && WaitsTogether(t[image], t[o], image in unseen)
      ensures t[image] == KeyInFlight && t[o] == KeyInFlight
    {
      if image in unseen {
        BlockedIsHeldBack(entries, classify, visible, image);
        if t[o] != KeyInFlight { BlockedIsHeldBack(entries, classify, visible, o); }
      } else if t[image] != KeyInFlight {
        if !HeldBack(entries, classify, visible, o) { BlockedIsHeldBack(entries, classify, visible, o); }
        PairIsHeldBack(entries, classify, visible, image, o);
      }
    }
  }

  /** No image that left the key is of a transaction not seen. */
  ghost predicate AllLeaversSeen(entries: map<Key, Entry>, visible: nat -> bool, k: Key)
  {
    forall image :: Pair(entries, image, k) ==> visible(entries[image].xid)
  }

  /** The entry at the key the image's row left, if there is one, does not wait. */
  ghost predicate OriginGoes(entries: map<Key, Entry>, classify: Key -> KeyState, visible: nat -> bool, k: Key)
  {
    forall o :: o != k && Pair(entries, k, o) ==> !HeldBack(entries, classify, visible, o)
  }

  /** The entry is due: seen, landed and not pending, every image that left its key seen, and the entry at the key
      it left not waiting. */
  ghost predicate Due(b: Buf, classify: Key -> KeyState, visible: nat -> bool, k: Key)
  {
    && k in b.entries && k !in b.pending && visible(b.entries[k].xid) && classify(k) == KeyLanded
    && AllLeaversSeen(b.entries, visible, k) && OriginGoes(b.entries, classify, visible, k)
  }

  /** The copier has yet to read the key, and will see the change: seen, uncut and not pending. */
  predicate Moot(b: Buf, classify: Key -> KeyState, visible: nat -> bool, k: Key)
  {
    k in b.entries && k !in b.pending && visible(b.entries[k].xid) && classify(k) == KeyUncut
  }

  /** Where every entry goes, from how its key is classified, which transactions are seen, which completions are
      pending and which images left which keys: flushed if and only if it is due, discarded if and only if it is
      moot, and else deferred, held or unseen. */
  lemma DrainExactly(b: Buf, classify: Key -> KeyState, visible: nat -> bool, state: Judged, k: Key)
    requires IsLeast(b.entries, Unseen(b.entries, visible), Judge(b.entries, classify, visible), state)
    requires k in b.entries
    ensures var d := Split(b, state, Unseen(b.entries, visible));
            var seen, waits := visible(b.entries[k].xid), HeldBack(b.entries, classify, visible, k);
            && (k in d.flushed <==> Due(b, classify, visible, k))
            && (k in d.discarded <==> Moot(b, classify, visible, k))
            && (k in d.deferred <==> k !in b.pending && seen && waits)
            && (k in d.held <==> k in b.pending)
            && (k in d.unseen <==> k !in b.pending && !seen)
  {
    var start, unseen := Judge(b.entries, classify, visible), Unseen(b.entries, visible);
    HeldBackExactly(b.entries, classify, visible, state, k);
    if start[k] == KeyUncut {
      UncutStays(b.entries, unseen, start, state, k);
    } else if start[k] == KeyLanded {
      LandedIsHeldExactly(b.entries, unseen, start, state, k);
      forall o | o != k && Pair(b.entries, k, o)
        ensures state[o] == KeyInFlight <==> HeldBack(b.entries, classify, visible, o)
      {
        HeldBackExactly(b.entries, classify, visible, state, o);
      }
    }
  }

  /** A drain never flushes a moved image ahead of the entry at the key it left while that one waits for its
      chunk, for its pair or for its transaction: such an entry is flushed or discarded too, or stays behind
      with a completion pending and nothing else to wait for. */
  lemma NeverAheadOfOrigin(b: Buf, classify: Key -> KeyState, visible: nat -> bool, state: Judged, image: Key, o: Key)
    requires IsLeast(b.entries, Unseen(b.entries, visible), Judge(b.entries, classify, visible), state)
    requires Pair(b.entries, image, o) && image in Split(b, state, Unseen(b.entries, visible)).flushed
    ensures var d := Split(b, state, Unseen(b.entries, visible));
            && state[o] != KeyInFlight && o !in Unseen(b.entries, visible)
            && (o in d.flushed || o in d.discarded || o in d.held)
  {
    var unseen := Unseen(b.entries, visible);
    assert Judge(b.entries, classify, visible)[o] == KeyInFlight || o !in unseen;
  }

  function Phased(p: Phase): (r: KeyState)
  {
    match p
    case Uncut => KeyUncut
    case Claimed(_) => KeyInFlight
    case Copied => KeyInFlight
    case Landed => KeyLanded
  }

  /** What this drain lets go, judging keys by `classify` where that agrees with the protocol's phases, is a
      choice the protocol allows, so everything proved of every choice holds of it. */
  lemma DrainIsChoice(s: State, classify: Key -> KeyState, state: Judged, visible: nat -> bool, s': State)
    requires s.notes.Keys == s.buf.entries.Keys
    requires forall k :: k in s.buf.entries ==> classify(k) == Phased(s.phase(k))
    requires IsLeast(s.buf.entries, Unseen(s.buf.entries, visible), Judge(s.buf.entries, classify, visible), state)
    requires var d := Split(s.buf, state, Unseen(s.buf.entries, visible));
             && s'.batch.Some? && s'.batch.value.keys == d.flushed
             && s'.buf.entries == s.buf.entries - d.discarded
             && s'.notes == s.notes - d.discarded
    ensures DrainChoice(s, s', visible)
  {
    var entries, unseen := s.buf.entries, Unseen(s.buf.entries, visible);
    var start := Judge(entries, classify, visible);
    var d := Split(s.buf, state, unseen);
    assert s'.notes.Keys == s.notes.Keys * s'.buf.entries.Keys;
    forall k | k in d.discarded ensures visible(entries[k].xid) && s.phase(k) == Uncut {
      assert start[k] == state[k];
    }
    forall k | k in d.flushed ensures visible(entries[k].xid) && s.phase(k) == Landed && k in s'.buf.entries {
      assert start[k] == state[k];
    }
  }
}
